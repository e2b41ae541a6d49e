/**
 The hash table of misaka/lib/hash.c at work on its array of linked chains.
 */
module HashTable {
  import opened Options
  import opened HashRows

  class Backet<T> {
    const key: nat
    const data: T
    var next: Backet?<T>

    constructor (key: nat, data: T, next: Backet?<T>)
      ensures this.key == key && this.data == data && this.next == next
    {
      this.key, this.data, this.next := key, data, next;
    }
  }

  /** What follows the `k`th node of a chain; what follows `-1` is the head. */
  function After<T>(nodes: seq<Backet<T>>, k: int): Backet?<T>
    requires -1 <= k < |nodes|
  {
    if k + 1 < |nodes| then nodes[k + 1] else null
  }

  /** A node of a chain: what it holds, what comes next, and the row it belongs to. */
  ghost predicate NodeOk<T>(nodes: seq<Backet<T>>, row: seq<Entry<T>>, k: int, i: nat, size: nat)
    requires 0 <= k < |nodes| == |row|
    reads nodes[k]
  {
    && Entry(nodes[k].key, nodes[k].data) == row[k] && nodes[k].next == After(nodes, k)
    && size > 0 && nodes[k].key % size == i
  }

  predicate OtherNode<T>(nodes: seq<Backet<T>>, k: int, l: int)
  {
    0 <= k < l < |nodes| ==> nodes[k] != nodes[l]
  }

  /** A chain from a head through nodes that hold row `i`. */
  ghost predicate Chain<T>(head: Backet?<T>, nodes: seq<Backet<T>>, row: seq<Entry<T>>, i: nat, size: nat)
    reads nodes
  {
    && |nodes| == |row| && head == After(nodes, -1)
    && (forall k :: 0 <= k < |nodes| ==> NodeOk(nodes, row, k, i, size))
    && (forall k, l :: OtherNode(nodes, k, l))
  }

  /** The loop of `hash_get` and `hash_release`: the backet of a datum, and the one before it. */
  method Seek<T>(head: Backet?<T>, x: T, key: nat, hashCmp: (T, T) -> bool,
                 ghost nodes: seq<Backet<T>>, ghost row: seq<Entry<T>>, ghost i: nat, ghost size: nat)
    returns (backet: Backet?<T>, pp: Backet?<T>, ghost k: nat)
    requires Chain(head, nodes, row, i, size)
    ensures k == Find(row, key, x, hashCmp) <= |nodes| == |row|
    ensures backet == After(nodes, Find(row, key, x, hashCmp) - 1)
    ensures pp == After(nodes, if k > 0 then k - 2 else -1)
  {
    backet, pp, k := head, head, 0;
    while backet != null
      invariant k <= |row| && backet == After(nodes, k - 1) && pp == After(nodes, if k > 0 then k - 2 else -1)
      invariant forall l :: 0 <= l < k ==> !Matches(row[l], key, x, hashCmp)
      decreases |row| - k
    {
      assert NodeOk(nodes, row, k, i, size);
      if backet.key == key && hashCmp(backet.data, x) {
        FindUnique(row, key, x, hashCmp, k);
        return;
      }
      pp, backet, k := backet, backet.next, k + 1;
    }
    FindUnique(row, key, x, hashCmp, k);
  }

  lemma ChainAdd<T>(nodes: seq<Backet<T>>, row: seq<Entry<T>>, i: nat, size: nat, b: Backet<T>)
    requires Chain(After(nodes, -1), nodes, row, i, size) && b !in nodes
    requires size > 0 && b.key % size == i && b.next == After(nodes, -1)
    ensures Chain(b, [b] + nodes, [Entry(b.key, b.data)] + row, i, size)
  {
    var nodes', row' := [b] + nodes, [Entry(b.key, b.data)] + row;
    forall k | 0 <= k < |nodes'| ensures NodeOk(nodes', row', k, i, size) {
      if k > 0 {
        assert NodeOk(nodes, row, k - 1, i, size);
      }
    }
    forall k, l ensures OtherNode(nodes', k, l) {
      assert OtherNode(nodes, k - 1, l - 1);
    }
  }

  /** A node of one row is in no other. */
  lemma NotInOther<T>(head: Backet?<T>, nodes: seq<Backet<T>>, row: seq<Entry<T>>, j: nat, size: nat, b: Backet<T>)
    requires Chain(head, nodes, row, j, size) && size > 0 && b.key % size != j
    ensures b !in nodes
  {
    forall k | 0 <= k < |nodes| ensures nodes[k] != b {
      assert NodeOk(nodes, row, k, j, size);
    }
  }

  /** The `k`th node bypassed, from the node before it or from the head. */
  lemma ChainCut<T>(nodes: seq<Backet<T>>, row: seq<Entry<T>>, i: nat, size: nat, k: nat)
    requires k < |nodes| == |row| && forall l, m :: OtherNode(nodes, l, m)
    requires forall l :: 0 <= l < |nodes| && l != k - 1 ==> NodeOk(nodes, row, l, i, size)
    requires k > 0 ==>
      && Entry(nodes[k - 1].key, nodes[k - 1].data) == row[k - 1] && size > 0 && nodes[k - 1].key % size == i
      && nodes[k - 1].next == After(nodes, k)
    ensures Chain(if k == 0 then After(nodes, 0) else nodes[0], Without(nodes, k), Without(row, k), i, size)
  {
    var nodes', row' := Without(nodes, k), Without(row, k);
    forall l | 0 <= l < |nodes'| ensures NodeOk(nodes', row', l, i, size) {
      if l != k - 1 {
        assert NodeOk(nodes, row, if l < k then l else l + 1, i, size);
      }
    }
    forall a, b ensures OtherNode(nodes', a, b) {
      assert OtherNode(nodes, if a < k then a else a + 1, if b < k then b else b + 1);
    }
  }

  class Hash<T(==,!new)> {
    const size: nat
    const index: array<Backet?<T>>
    const hashKey: T -> nat
    const hashCmp: (T, T) -> bool
    var count: nat

    ghost var repr: set<Backet<T>>
    ghost var nodes: seq<seq<Backet<T>>>
    ghost var rows: seq<seq<Entry<T>>>

    ghost predicate Shaped()
      reads this
    {
      && 0 < size == index.Length == |nodes| == |rows|
      && (forall i, b :: 0 <= i < size && b in nodes[i] ==> b in repr)
    }

    /** Every chain holds its row, where chain `i` hangs from `head` and the others from the index. */
    ghost predicate Linked(i: int, head: Backet?<T>)
      reads this, index, repr
      requires Shaped()
    {
      forall j :: 0 <= j < size ==> Chain(if j == i then head else index[j], nodes[j], rows[j], j, size)
    }

    ghost predicate Valid()
      reads this, index, repr
    {
      Shaped() && Linked(-1, null) && count == Total(rows)
    }

    /** `hash_create_size` */
    constructor (size: nat, hashKey: T -> nat, hashCmp: (T, T) -> bool)
      requires size > 0
      ensures Valid() && rows == seq(size, i => []) && fresh(index) && repr == {}
      ensures this.size == size && this.hashKey == hashKey && this.hashCmp == hashCmp
    {
      this.size, this.hashKey, this.hashCmp := size, hashKey, hashCmp;
      index := new Backet?<T>[size](i => null);
      count, repr := 0, {};
      nodes, rows := seq(size, i => []), seq(size, i => []);
      new;
      NoEntries(rows);
    }

    /** The part of `hash_get` that makes a new backet. */
    method Add(key: nat, data: T)
      requires Valid()
      modifies this, index
      ensures Valid() && fresh(repr - old(repr))
      ensures var i := key % size; rows == old(rows)[i := [Entry(key, data)] + old(rows)[i]]
    {
      var i := key % size;
      assert Chain(index[i], nodes[i], rows[i], i, size);
      var backet := new Backet(key, data, index[i]);
      index[i] := backet;
      count := count + 1;
      ChainAdd(nodes[i], rows[i], i, size, backet);
      TotalUpdate(rows, i, [Entry(key, data)] + rows[i]);
      nodes := nodes[i := [backet] + nodes[i]];
      rows := rows[i := [Entry(key, data)] + rows[i]];
      repr := repr + {backet};
    }

    /** `hash_get` */
    method Get(x: T, alloc: Alloc<T>) returns (r: Option<T>)
      requires Valid()
      modifies this, index
      ensures Valid() && fresh(repr - old(repr))
      ensures (rows, r) == GetRows(old(rows), x, alloc, hashKey, hashCmp)
    {
      var key := hashKey(x);
      var i := key % size;
      assert Chain(index[i], nodes[i], rows[i], i, size);
      var backet, _, k := Seek(index[i], x, key, hashCmp, nodes[i], rows[i], i, size);
      if backet != null {
        assert NodeOk(nodes[i], rows[i], k, i, size);
        return Some(backet.data);
      }
      if alloc.Alloc? {
        if alloc.result.None? {
          return None;
        }
        Add(key, alloc.result.value);
        return alloc.result;
      }
      return None;
    }

    /** The pointer moves of `hash_release` on a backet and the one before it. */
    method Bypass(i: nat, backet: Backet<T>, pp: Backet<T>, ghost k: nat)
      requires Valid() && i < size && k < |nodes[i]|
      requires backet == nodes[i][k] && pp == if k > 0 then nodes[i][k - 1] else backet
      modifies index, repr
      ensures Chain(index[i], Without(nodes[i], k), Without(rows[i], k), i, size)
      ensures forall j :: 0 <= j < size && j != i ==> Chain(index[j], nodes[j], rows[j], j, size)
    {
      ghost var ns := nodes[i];
      assert Chain(index[i], ns, rows[i], i, size);
      assert OtherNode(ns, k - 1, k) && NodeOk(ns, rows[i], k, i, size);
      assert NodeOk(ns, rows[i], if k > 0 then k - 1 else k, i, size);
      forall j | 0 <= j < size && j != i ensures pp !in nodes[j] {
        NotInOther(index[j], nodes[j], rows[j], j, size, pp);
      }
      if backet == pp {
        index[i] := backet.next;
      } else {
        pp.next := backet.next;
      }
      forall l | 0 <= l < |ns| && l != k - 1 ensures NodeOk(ns, rows[i], l, i, size) {
        assert old(NodeOk(ns, rows[i], l, i, size)) && OtherNode(ns, l, k - 1) && OtherNode(ns, k - 1, l);
      }
      ChainCut(ns, rows[i], i, size, k);
      forall j | 0 <= j < size && j != i ensures Chain(index[j], nodes[j], rows[j], j, size) {
        assert old(Chain(index[j], nodes[j], rows[j], j, size));
      }
    }

    /** The part of `hash_release` that takes a backet out of its chain. */
    method Unlink(i: nat, backet: Backet<T>, pp: Backet<T>, ghost k: nat)
      requires Valid() && i < size && k < |nodes[i]|
      requires backet == nodes[i][k] && pp == if k > 0 then nodes[i][k - 1] else backet
      modifies this, index, repr
      ensures Valid() && repr == old(repr)
      ensures nodes == old(nodes)[i := Without(old(nodes)[i], k)] && rows == old(rows)[i := Without(old(rows)[i], k)]
    {
      assert Chain(index[i], nodes[i], rows[i], i, size);
      TotalUpdate(rows, i, Without(rows[i], k));
      Bypass(i, backet, pp, k);
      count := count - 1;
      WithoutMembers(nodes[i], k);
      nodes, rows := nodes[i := Without(nodes[i], k)], rows[i := Without(rows[i], k)];
    }

    /** `hash_release` */
    method Release(x: T) returns (r: Option<T>, ghost i: nat, ghost k: nat)
      requires Valid()
      modifies this, index, repr
      ensures Valid() && repr == old(repr)
      ensures (rows, r) == ReleaseRows(old(rows), x, hashKey, hashCmp)
      ensures i == hashKey(x) % size && k == Find(old(rows)[i], hashKey(x), x, hashCmp)
      ensures nodes == if r.Some? then old(nodes)[i := Without(old(nodes)[i], k)] else old(nodes)
    {
      var key := hashKey(x);
      var slot := key % size;
      i := slot;
      assert Chain(index[slot], nodes[i], rows[i], i, size);
      var backet, pp, at := Seek(index[slot], x, key, hashCmp, nodes[i], rows[i], i, size);
      k := at;
      if backet != null {
        assert NodeOk(nodes[i], rows[i], k, i, size);
        r := Some(backet.data);
        Unlink(slot, backet, pp, k);
      } else {
        r := None;
      }
    }

    /** The callback of `hash_iterate` on a backet, when it releases the data to be dropped. */
    method Callback(hb: Backet<T>, drop: T -> bool, ghost i: nat, ghost p: nat)
      requires Valid() && FindsItself(rows, hashKey, hashCmp, i, p)
      requires i < size && p < |nodes[i]| && hb == nodes[i][p]
      modifies this, index, repr
      ensures Valid() && repr == old(repr) && |old(rows)[i]| == |old(nodes)[i]|
      ensures if drop(hb.data)
        then nodes == old(nodes)[i := Without(old(nodes)[i], p)] && rows == old(rows)[i := Without(old(rows)[i], p)]
        else nodes == old(nodes) && rows == old(rows)
    {
      assert Chain(index[i], nodes[i], rows[i], i, size);
      if drop(hb.data) {
        assert NodeOk(nodes[i], rows[i], p, i, size);
        var _, _, _ := Release(hb.data);
      }
    }

    /** One turn of the inner loop of `hash_iterate`: the next backet is fetched before the callback. */
    method Visit(hb: Backet<T>, drop: T -> bool, ghost i: nat, ghost p: nat) returns (hbnext: Backet?<T>)
      requires Valid() && Tidy(rows, hashKey, hashCmp) && i < size && p < |nodes[i]| && hb == nodes[i][p]
      modifies this, index, repr
      ensures Valid() && repr == old(repr) && Tidy(rows, hashKey, hashCmp)
      ensures |old(rows)[i]| == |old(nodes)[i]| && Entry(hb.key, hb.data) == old(rows)[i][p]
      ensures rows == if drop(hb.data) then old(rows)[i := Without(old(rows)[i], p)] else old(rows)
      ensures |nodes[i]| == |rows[i]| && hbnext == After(nodes[i], if drop(hb.data) then p - 1 else p)
    {
      assert Chain(index[i], nodes[i], rows[i], i, size) && NodeOk(nodes[i], rows[i], p, i, size);
      assert FindsItself(rows, hashKey, hashCmp, i, p);
      StillTidy(rows, hashKey, hashCmp, i, p);
      hbnext := hb.next;
      Callback(hb, drop, i, p);
    }

    /** The inner loop of `hash_iterate` has come to the `k`th entry that row `i` had at first. */
    ghost predicate At(rows0: seq<seq<Entry<T>>>, i: nat, k: nat, drop: T -> bool, hb: Backet?<T>)
      reads this
    {
      && i < |rows0| && k <= |rows0[i]| && rows == Partway(rows0, i, k, drop)
      && i < |nodes| && |nodes[i]| == |rows[i]| && hb == After(nodes[i], |Sift(rows0[i][..k], drop)| - 1)
    }

    method VisitNext(hb: Backet<T>, drop: T -> bool, ghost rows0: seq<seq<Entry<T>>>, ghost i: nat, ghost k: nat)
      returns (hbnext: Backet?<T>)
      requires Valid() && Tidy(rows, hashKey, hashCmp) && At(rows0, i, k, drop, hb)
      modifies this, index, repr
      ensures Valid() && repr == old(repr) && Tidy(rows, hashKey, hashCmp)
      ensures k < |rows0[i]| && Entry(hb.key, hb.data) == rows0[i][k] && At(rows0, i, k + 1, drop, hbnext)
    {
      ghost var p := |Sift(rows0[i][..k], drop)|;
      assert k < |rows0[i]|;
      PartwayStep(rows0, i, k, drop);
      hbnext := Visit(hb, drop, i, p);
    }

    lemma AtStart(i: nat, drop: T -> bool)
      requires Valid() && i < size
      ensures At(rows, i, 0, drop, index[i])
    {
      assert Chain(index[i], nodes[i], rows[i], i, size);
      PartwayEnds(rows, i, drop);
    }

    lemma AtEnd(rows0: seq<seq<Entry<T>>>, i: nat, k: nat, drop: T -> bool)
      requires At(rows0, i, k, drop, null)
      ensures k == |rows0[i]| && rows0[i][..k] == rows0[i] && rows == rows0[i := Sift(rows0[i], drop)]
    {
      Prefixes(rows0[i], k);
      PartwayEnds(rows0, i, drop);
    }

    /** The inner loop of `hash_iterate`. */
    method IterateRow(i: nat, drop: T -> bool) returns (seen: seq<Entry<T>>)
      requires Valid() && Tidy(rows, hashKey, hashCmp) && i < size
      modifies this, index, repr
      ensures Valid() && repr == old(repr) && Tidy(rows, hashKey, hashCmp)
      ensures seen == old(rows)[i] && rows == old(rows)[i := Sift(old(rows)[i], drop)]
    {
      ghost var rows0, k := rows, 0;
      AtStart(i, drop);
      var hb := index[i];
      seen := [];
      while hb != null
        modifies this, index, repr
        invariant Valid() && repr == old(repr) && Tidy(rows, hashKey, hashCmp)
        invariant At(rows0, i, k, drop, hb) && seen == rows0[i][..k]
        decreases |rows0[i]| - k
      {
        Prefixes(rows0[i], k);
        seen := seen + [Entry(hb.key, hb.data)];
        hb := VisitNext(hb, drop, rows0, i, k);
        k := k + 1;
      }
      AtEnd(rows0, i, k, drop);
    }

    /**
     `hash_iterate` with a callback that releases some of what it is given: every entry is
     visited once, in order, and exactly the dropped ones are gone afterwards.
     */
    method Iterate(drop: T -> bool) returns (seen: seq<Entry<T>>)
      requires Valid() && Tidy(rows, hashKey, hashCmp)
      modifies this, index, repr
      ensures Valid() && repr == old(repr)
      ensures seen == Flat(old(rows)) && SiftedRows(old(rows), rows, drop)
    {
      seen := [];
      ghost var rows0 := rows;
      var i := 0;
      while i < size
        modifies this, index, repr
        invariant i <= size && Valid() && repr == old(repr) && Tidy(rows, hashKey, hashCmp)
        invariant |rows0| == size && seen == Flat(rows0[..i]) && SiftedUpTo(rows0, rows, drop, i)
      {
        FlatStep(rows0, i);
        SiftedStep(rows0, rows, drop, i);
        var more := IterateRow(i, drop);
        seen := seen + more;
        i := i + 1;
      }
      Prefixes(rows0, 0);
    }

    /** The inner loop of `hash_clean`, and the end of the chain. */
    method CleanRow(i: nat) returns (freed: seq<Entry<T>>)
      requires Valid() && i < size
      modifies this, index
      ensures Valid() && repr == old(repr)
      ensures freed == old(rows)[i] && rows == old(rows)[i := []]
    {
      ghost var row, k := rows[i], 0;
      assert Chain(index[i], nodes[i], row, i, size);
      TotalUpdate(rows, i, []);
      var hb := index[i];
      freed := [];
      while hb != null
        modifies this`count
        invariant k <= |row| && freed == row[..k] && hb == After(nodes[i], k - 1)
        invariant count == Total(rows) - k
        decreases |row| - k
      {
        assert NodeOk(nodes[i], row, k, i, size);
        Prefixes(row, k);
        var next := hb.next;
        freed := freed + [Entry(hb.key, hb.data)];
        count := count - 1;
        hb, k := next, k + 1;
      }
      Prefixes(row, k);
      index[i] := null;
      nodes, rows := nodes[i := []], rows[i := []];
    }

    /** `hash_clean`: every entry is freed, in order, and the table is empty. */
    method Clean() returns (freed: seq<Entry<T>>)
      requires Valid()
      modifies this, index
      ensures Valid() && repr == old(repr) && count == 0
      ensures freed == Flat(old(rows)) && rows == seq(size, i => [])
    {
      freed := [];
      ghost var rows0 := rows;
      var i := 0;
      while i < size
        modifies this, index
        invariant i <= size && Valid() && repr == old(repr)
        invariant freed == Flat(rows0[..i]) && |rows0| == size
        invariant forall j :: 0 <= j < size ==> rows[j] == if j < i then [] else rows0[j]
      {
        FlatStep(rows0, i);
        var more := CleanRow(i);
        freed := freed + more;
        i := i + 1;
      }
      Prefixes(rows0, 0);
      NoEntries(rows);
    }
  }

  lemma WithoutMembers<T>(s: seq<T>, k: nat)
    requires k < |s|
    ensures forall x :: x in Without(s, k) ==> x in s
  {
    forall x | x in Without(s, k) ensures x in s {
      var l :| 0 <= l < |s| - 1 && Without(s, k)[l] == x;
      assert s[if l < k then l else l + 1] == x;
    }
  }

  lemma {:induction false} NoEntries<T>(rows: seq<seq<T>>)
    requires forall i :: 0 <= i < |rows| ==> rows[i] == []
    ensures Total(rows) == 0
  {
    if rows != [] {
      NoEntries(rows[1..]);
    }
  }
}
