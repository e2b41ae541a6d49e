/**
 Whole runs of the hash table of misaka/lib/hash.c against a map.
 */
module HashMap {
  import opened Options
  import opened HashRows
  import opened HashTable

  /** What a user does with a table; `Sweep` goes through it with a callback that releases some data. */
  datatype Op<!T> =
    | Fetch(x: T, alloc: Alloc<T>)
    | Remove(x: T)
    | Size
    | Sweep(drop: T -> bool)
    | Clear

  datatype Outcome<T> = Datum(value: Option<T>) | Number(n: nat) | Visited(data: multiset<T>)

  /** What an `alloc_func` makes out of a datum has its name. */
  ghost predicate Legal<K, T>(op: Op<T>, name: T -> K)
  {
    op.Fetch? && op.alloc.Alloc? && op.alloc.result.Some? ==> name(op.alloc.result.value) == name(op.x)
  }

  /** The same on a map. */
  ghost function Do<K, T>(m: map<K, T>, op: Op<T>, name: T -> K): (map<K, T>, Outcome<T>)
  {
    match op
    case Fetch(x, alloc) => (Got(m, name(x), alloc).0, Datum(Got(m, name(x), alloc).1))
    case Remove(x) => (Released(m, name(x)).0, Datum(Released(m, name(x)).1))
    case Size => (m, Number(|m|))
    case Sweep(drop) => (SiftMap(m, drop), Visited(multiset(m.Values)))
    case Clear => (map[], Visited(multiset(m.Values)))
  }

  ghost function Outcomes<K, T>(m: map<K, T>, ops: seq<Op<T>>, name: T -> K): seq<Outcome<T>>
    decreases |ops|
  {
    if ops == [] then [] else [Do(m, ops[0], name).1] + Outcomes(Do(m, ops[0], name).0, ops[1..], name)
  }

  // ----- what a map shows, from what was done to it -----

  /** The map after a run. */
  ghost function After<K, T>(ops: seq<Op<T>>, name: T -> K): map<K, T>
  {
    if ops == [] then map[] else Do(After(ops[..|ops| - 1], name), ops[|ops| - 1], name).0
  }

  ghost function AfterFrom<K, T>(m: map<K, T>, ops: seq<Op<T>>, name: T -> K): map<K, T>
    decreases |ops|
  {
    if ops == [] then m else AfterFrom(Do(m, ops[0], name).0, ops[1..], name)
  }

  lemma {:induction false} AfterSnoc<K, T>(m: map<K, T>, ops: seq<Op<T>>, op: Op<T>, name: T -> K)
    ensures AfterFrom(m, ops + [op], name) == Do(AfterFrom(m, ops, name), op, name).0
    decreases |ops|
  {
    if ops == [] {
      assert ([op])[1..] == [];
    } else {
      assert (ops + [op])[1..] == ops[1..] + [op];
      AfterSnoc(Do(m, ops[0], name).0, ops[1..], op, name);
    }
  }

  lemma {:induction false} AfterIsFrom<K, T>(ops: seq<Op<T>>, name: T -> K)
    ensures After(ops, name) == AfterFrom(map[], ops, name)
  {
    if ops != [] {
      var front, last := ops[..|ops| - 1], ops[|ops| - 1];
      AfterIsFrom(front, name);
      AfterSnoc(map[], front, last, name);
      assert ops == front + [last];
    }
  }

  lemma {:induction false} OutcomeFrom<K, T>(m: map<K, T>, ops: seq<Op<T>>, name: T -> K, k: nat)
    requires k < |ops|
    ensures |Outcomes(m, ops, name)| == |ops|
    ensures Outcomes(m, ops, name)[k] == Do(AfterFrom(m, ops[..k], name), ops[k], name).1
    decreases |ops|
  {
    if |ops| > 1 {
      OutcomeFrom(Do(m, ops[0], name).0, ops[1..], name, if k == 0 then 0 else k - 1);
    }
    if k > 0 {
      assert ops[..k][1..] == ops[1..][..k - 1];
    }
  }

  /** The `k`th outcome of a run is what the map after the first `k` operations shows. */
  lemma OutcomeAt<K, T>(ops: seq<Op<T>>, name: T -> K, k: nat)
    requires k < |ops|
    ensures |Outcomes(map[], ops, name)| == |ops|
    ensures Outcomes(map[], ops, name)[k] == Do(After(ops[..k], name), ops[k], name).1
  {
    OutcomeFrom(map[], ops, name, k);
    AfterIsFrom(ops[..k], name);
  }

  /** Operation `k` puts datum `d` in under a name that was not there. */
  ghost predicate Inserts<K, T>(ops: seq<Op<T>>, name: T -> K, k: nat, n: K, d: T)
  {
    k < |ops| && ops[k].Fetch? && name(ops[k].x) == n && ops[k].alloc == Alloc(Some(d)) && n !in After(ops[..k], name)
  }

  /** An operation that takes the datum of a name out. */
  ghost predicate Removes<K, T>(op: Op<T>, name: T -> K, n: K, d: T)
  {
    match op
    case Remove(x) => name(x) == n
    case Sweep(drop) => drop(d)
    case Clear => true
    case _ => false
  }

  /** Operation `k` put the datum in, and none after it took it out. */
  ghost predicate Stays<K, T>(ops: seq<Op<T>>, name: T -> K, k: nat, n: K, d: T)
  {
    Inserts(ops, name, k, n, d) && forall j :: k < j < |ops| ==> !Removes(ops[j], name, n, d)
  }

  lemma StaysFront<K, T>(ops: seq<Op<T>>, name: T -> K, k: nat, n: K, d: T)
    requires ops != [] && k < |ops| - 1
    ensures Stays(ops, name, k, n, d) <==>
      Stays(ops[..|ops| - 1], name, k, n, d) && !Removes(ops[|ops| - 1], name, n, d)
  {
    assert ops[..|ops| - 1][..k] == ops[..k];
  }

  /** A name is in the map with a datum if and only if the datum was put in under it and not taken out since. */
  lemma {:induction false} MapIsHistory<K, T>(ops: seq<Op<T>>, name: T -> K, n: K, d: T)
    ensures n in After(ops, name) && After(ops, name)[n] == d <==> exists k :: Stays(ops, name, k, n, d)
  {
    if ops != [] {
      var front, last, z := ops[..|ops| - 1], ops[|ops| - 1], |ops| - 1;
      var m := After(front, name);
      MapIsHistory(front, name, n, d);
      assert ops[..z] == front;
      forall k: nat | k < z
        ensures Stays(ops, name, k, n, d) <==> Stays(front, name, k, n, d) && !Removes(last, name, n, d)
      {
        StaysFront(ops, name, k, n, d);
      }
      if n in m && m[n] == d {
        var k: nat :| Stays(front, name, k, n, d);
        assert k < z;
      }
      assert Stays(ops, name, z, n, d) <==> Inserts(ops, name, z, n, d);
      if Inserts(ops, name, z, n, d) {
        assert Stays(ops, name, z, n, d);
      }
    }
  }

  /**
   What calls show is what was done before: a release returns a datum if and only if that one
   stays under the name, a fetch finds it too, or else shows what its callback makes.
   */
  lemma CallsShowHistory<K, T>(ops: seq<Op<T>>, name: T -> K, x: T, d: T, alloc: Alloc<T>)
    ensures var m := After(ops, name);
      && (Do(m, Remove(x), name).1 == Datum(Some(d)) <==> exists k :: Stays(ops, name, k, name(x), d))
      && ((exists k :: Stays(ops, name, k, name(x), d)) ==> Do(m, Fetch(x, alloc), name).1 == Datum(Some(d)))
      && (Do(m, Remove(x), name).1 == Datum(None) ==>
           Do(m, Fetch(x, alloc), name).1 == Datum(if alloc.Alloc? then alloc.result else None))
      && Do(m, Size, name).1 == Number(|m|)
      && forall op: Op<T> :: op.Sweep? || op.Clear? ==> Do(m, op, name).1 == Visited(multiset(m.Values))
  {
    MapIsHistory(ops, name, name(x), d);
  }

  function DataOf<T>(seen: seq<Entry<T>>): (data: seq<T>)
    ensures |data| == |seen| && forall a :: 0 <= a < |seen| ==> data[a] == seen[a].data
  {
    seq(|seen|, a requires 0 <= a < |seen| => seen[a].data)
  }

  lemma {:induction false} DistinctOnce<T>(xs: seq<T>)
    requires forall a, b :: 0 <= a < b < |xs| ==> xs[a] != xs[b]
    ensures multiset(xs) == multiset(set x | x in xs)
  {
    if xs != [] {
      var front, last := xs[..|xs| - 1], xs[|xs| - 1];
      DistinctOnce(front);
      assert xs == front + [last];
      assert (set x | x in xs) == (set x | x in front) + {last};
    }
  }

  /** Data seen once for each name are the data of the map, each once. */
  lemma VisitsAll<K, T>(seen: seq<Entry<T>>, m: map<K, T>, name: T -> K)
    requires EachOnce(seen, m, name)
    ensures multiset(DataOf(seen)) == multiset(m.Values)
  {
    var data := DataOf(seen);
    forall a, b | 0 <= a < b < |data| ensures data[a] != data[b] {
      assert OtherName(seen, a, b, name);
    }
    DistinctOnce(data);
    forall x ensures x in data <==> x in m.Values {
      if x in m.Values {
        var n :| n in m && m[n] == x;
        var a :| 0 <= a < |seen| && name(seen[a].data) == n && seen[a].data == m[n];
        assert data[a] == x;
      }
      if x in data {
        var a :| 0 <= a < |data| && data[a] == x;
        assert m[name(seen[a].data)] == x;
      }
    }
    assert (set x | x in data) == m.Values;
  }

  lemma EmptyRepresents<K, T>(size: nat, hashKey: T -> nat, name: T -> K)
    requires size > 0
    ensures Represents(seq(size, (i: nat) => []), map[], hashKey, name)
  {
  }

  /** A table that stands for a map. */
  ghost predicate Holds<K, T(!new)>(h: Hash<T>, m: map<K, T>, name: T -> K)
    reads h, h.index, h.repr
  {
    h.Valid() && Represents(h.rows, m, h.hashKey, name) && Consistent(h.hashKey, h.hashCmp, name)
  }

  method GoThrough<K, T(==,!new)>(h: Hash<T>, drop: T -> bool, ghost m: map<K, T>, ghost name: T -> K) returns (seen: seq<Entry<T>>)
    requires Holds(h, m, name)
    modifies h, h.index, h.repr
    ensures Holds(h, SiftMap(m, drop), name) && h.repr == old(h.repr)
    ensures EachOnce(seen, m, name)
  {
    ConsistentIsTidy(h.rows, m, h.hashKey, h.hashCmp, name);
    FlatEachOnce(h.rows, m, h.hashKey, name);
    ghost var rows := h.rows;
    seen := h.Iterate(drop);
    SiftRefines(rows, m, h.rows, h.hashKey, name, drop);
  }

  method Empty<K, T(==,!new)>(h: Hash<T>, ghost m: map<K, T>, ghost name: T -> K) returns (freed: seq<Entry<T>>)
    requires Holds(h, m, name)
    modifies h, h.index
    ensures Holds<K, T>(h, map[], name) && h.repr == old(h.repr)
    ensures EachOnce(freed, m, name)
  {
    FlatEachOnce(h.rows, m, h.hashKey, name);
    freed := h.Clean();
    EmptyRepresents(h.size, h.hashKey, name);
  }

  method Perform<K(==), T(==,!new)>(h: Hash<T>, op: Op<T>, ghost m: map<K, T>, ghost name: T -> K) returns (r: Outcome<T>)
    requires Holds(h, m, name) && Legal(op, name)
    modifies h, h.index, h.repr
    ensures Holds(h, Do(m, op, name).0, name) && fresh(h.repr - old(h.repr))
    ensures r == Do(m, op, name).1
  {
    match op {
      case Fetch(x, alloc) =>
        GetRefines(h.rows, m, h.hashKey, h.hashCmp, name, x, alloc);
        var d := h.Get(x, alloc);
        r := Datum(d);
      case Remove(x) =>
        ReleaseRefines(h.rows, m, h.hashKey, h.hashCmp, name, x);
        var d, _, _ := h.Release(x);
        r := Datum(d);
      case Size =>
        CountExact(h.rows, m, h.hashKey, name);
        r := Number(h.count);
      case Sweep(drop) =>
        var seen := GoThrough(h, drop, m, name);
        r := Visited(multiset(DataOf(seen)));
        VisitsAll(seen, m, name);
      case Clear =>
        var freed := Empty(h, m, name);
        r := Visited(multiset(DataOf(freed)));
        VisitsAll(freed, m, name);
    }
  }

  lemma OneMore<K, T>(done: seq<Outcome<T>>, m: map<K, T>, left: seq<Op<T>>, name: T -> K)
    requires left != []
    ensures done + Outcomes(m, left, name) ==
      (done + [Do(m, left[0], name).1]) + Outcomes(Do(m, left[0], name).0, left[1..], name)
  {
  }

  /**
   Any sequence of calls on a table of any size shows what the map would show: a datum is found
   exactly when the map has its name, the count is exact at all times, and going through the
   table or emptying it meets every datum once.
   */
  method RunTable<K(==), T(==,!new)>(size: nat, hashKey: T -> nat, hashCmp: (T, T) -> bool, ghost name: T -> K, ops: seq<Op<T>>)
    returns (done: seq<Outcome<T>>)
    requires size > 0 && Consistent(hashKey, hashCmp, name)
    requires forall i :: 0 <= i < |ops| ==> Legal(ops[i], name)
    ensures done == Outcomes(map[], ops, name)
  {
    var h := new Hash(size, hashKey, hashCmp);
    EmptyRepresents(size, hashKey, name);
    ghost var m: map<K, T> := map[];
    done := [];
    ghost var all := Outcomes(m, ops, name);
    var i := 0;
    assert ops[0..] == ops && done + all == all;
    while i < |ops|
      invariant i <= |ops| && fresh(h) && fresh(h.index) && fresh(h.repr)
      invariant Holds(h, m, name)
      invariant done + Outcomes(m, ops[i..], name) == all
    {
      OneMore(done, m, ops[i..], name);
      assert ops[i..][0] == ops[i] && ops[i..][1..] == ops[i + 1..];
      var r := Perform(h, ops[i], m, name);
      m := Do(m, ops[i], name).0;
      done := done + [r];
      i := i + 1;
    }
    assert ops[i..] == [];
    assert done + [] == done;
  }
}
