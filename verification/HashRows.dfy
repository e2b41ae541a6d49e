/**
 The chained hash table of misaka/lib/hash.c as rows of entries, and the map it stands for.

 A table is given a key function and a comparison.  They are consistent when the comparison
 tells data apart by a name and data of one name have one key; then the table is a map from
 names to data.
 */
module HashRows {
  import opened Options

  /** The `alloc_func` of a call: there is none, or it gives a result (or `NULL`). */
  datatype Alloc<+T> = NoAlloc | Alloc(result: Option<T>)

  datatype Entry<+T> = Entry(key: nat, data: T)

  predicate Matches<T>(e: Entry<T>, key: nat, x: T, hashCmp: (T, T) -> bool)
  {
    e.key == key && hashCmp(e.data, x)
  }

  /** The first entry that matches is the `k`th; none does when `k` is the length. */
  ghost predicate FoundAt<T>(row: seq<Entry<T>>, key: nat, x: T, hashCmp: (T, T) -> bool, k: nat)
  {
    && k <= |row| && (k < |row| ==> Matches(row[k], key, x, hashCmp))
    && forall l :: 0 <= l < k ==> !Matches(row[l], key, x, hashCmp)
  }

  function Find<T>(row: seq<Entry<T>>, key: nat, x: T, hashCmp: (T, T) -> bool): (k: nat)
    ensures FoundAt(row, key, x, hashCmp, k)
  {
    if row == [] || Matches(row[0], key, x, hashCmp) then 0 else 1 + Find(row[1..], key, x, hashCmp)
  }

  function Without<T>(row: seq<T>, k: nat): (r: seq<T>)
    requires k < |row|
    ensures |r| == |row| - 1
    ensures forall l :: 0 <= l < |r| ==> r[l] == if l < k then row[l] else row[l + 1]
  {
    row[..k] + row[k + 1..]
  }

  /** What `hash_get` does to the rows. */
  function GetRows<T>(rows: seq<seq<Entry<T>>>, x: T, alloc: Alloc<T>, hashKey: T -> nat, hashCmp: (T, T) -> bool)
    : (seq<seq<Entry<T>>>, Option<T>)
    requires |rows| > 0
  {
    var key := hashKey(x);
    var i := key % |rows|;
    var k := Find(rows[i], key, x, hashCmp);
    if k < |rows[i]| then (rows, Some(rows[i][k].data))
    else if alloc.Alloc? && alloc.result.Some? then
      (rows[i := [Entry(key, alloc.result.value)] + rows[i]], alloc.result)
    else (rows, None)
  }

  /** What `hash_release` does to the rows. */
  function ReleaseRows<T>(rows: seq<seq<Entry<T>>>, x: T, hashKey: T -> nat, hashCmp: (T, T) -> bool)
    : (seq<seq<Entry<T>>>, Option<T>)
    requires |rows| > 0
  {
    var key := hashKey(x);
    var i := key % |rows|;
    var k := Find(rows[i], key, x, hashCmp);
    if k < |rows[i]| then (rows[i := Without(rows[i], k)], Some(rows[i][k].data)) else (rows, None)
  }

  /** The number of entries. */
  function Total<T>(rows: seq<seq<T>>): nat
  {
    if rows == [] then 0 else |rows[0]| + Total(rows[1..])
  }

  lemma {:induction false} TotalUpdate<T>(rows: seq<seq<T>>, i: nat, row: seq<T>)
    requires i < |rows|
    ensures Total(rows[i := row]) + |rows[i]| == Total(rows) + |row|
  {
    if i == 0 {
      assert rows[0 := row][1..] == rows[1..];
    } else {
      assert rows[i := row][1..] == rows[1..][i - 1 := row];
      TotalUpdate(rows[1..], i - 1, row);
    }
  }

  // ----- the map -----

  predicate ConsistentAt<K(==), T>(hashKey: T -> nat, hashCmp: (T, T) -> bool, name: T -> K, x: T, y: T)
  {
    (hashCmp(x, y) <==> name(x) == name(y)) && (hashCmp(x, y) ==> hashKey(x) == hashKey(y))
  }

  ghost predicate Consistent<K, T(!new)>(hashKey: T -> nat, hashCmp: (T, T) -> bool, name: T -> K)
  {
    forall x, y :: ConsistentAt(hashKey, hashCmp, name, x, y)
  }

  /** An entry sits in row `i` and stands for the map at its name. */
  predicate InRow<K(==), T(==)>(e: Entry<T>, i: nat, size: nat, m: map<K, T>, hashKey: T -> nat, name: T -> K)
  {
    && size > 0 && e.key == hashKey(e.data) && e.key % size == i
    && name(e.data) in m && m[name(e.data)] == e.data
  }

  predicate OtherName<K(==), T>(row: seq<Entry<T>>, k: int, l: int, name: T -> K)
  {
    0 <= k < l < |row| ==> name(row[k].data) != name(row[l].data)
  }

  ghost predicate RowOf<K, T>(row: seq<Entry<T>>, i: nat, size: nat, m: map<K, T>, hashKey: T -> nat, name: T -> K)
  {
    && (forall k :: 0 <= k < |row| ==> InRow(row[k], i, size, m, hashKey, name))
    && (forall k, l :: OtherName(row, k, l, name))
  }

  ghost predicate Covered<K, T>(rows: seq<seq<Entry<T>>>, m: map<K, T>, n: K, hashKey: T -> nat, name: T -> K)
    requires |rows| > 0 && n in m
  {
    name(m[n]) == n && Entry(hashKey(m[n]), m[n]) in rows[hashKey(m[n]) % |rows|]
  }

  /** The map that the rows stand for. */
  ghost predicate Represents<K, T>(rows: seq<seq<Entry<T>>>, m: map<K, T>, hashKey: T -> nat, name: T -> K)
  {
    && |rows| > 0
    && (forall i :: 0 <= i < |rows| ==> RowOf(rows[i], i, |rows|, m, hashKey, name))
    && (forall n :: n in m ==> Covered(rows, m, n, hashKey, name))
  }

  /** What `hash_get` does to the map. */
  function Got<K(==), T>(m: map<K, T>, n: K, alloc: Alloc<T>): (map<K, T>, Option<T>)
  {
    if n in m then (m, Some(m[n]))
    else if alloc.Alloc? && alloc.result.Some? then (m[n := alloc.result.value], alloc.result)
    else (m, None)
  }

  /** What `hash_release` does to the map. */
  function Released<K(==), T>(m: map<K, T>, n: K): (map<K, T>, Option<T>)
  {
    if n in m then (m - {n}, Some(m[n])) else (m, None)
  }

  /** The search in its row finds a datum exactly when the map has its name. */
  lemma FindRefines<K, T(!new)>(rows: seq<seq<Entry<T>>>, m: map<K, T>, hashKey: T -> nat, hashCmp: (T, T) -> bool,
                                       name: T -> K, x: T)
    requires Represents(rows, m, hashKey, name) && Consistent(hashKey, hashCmp, name)
    ensures var i := hashKey(x) % |rows|; var k := Find(rows[i], hashKey(x), x, hashCmp);
      if name(x) in m then k < |rows[i]| && rows[i][k] == Entry(hashKey(x), m[name(x)]) else k == |rows[i]|
  {
    var i := hashKey(x) % |rows|;
    var row := rows[i];
    var k := Find(row, hashKey(x), x, hashCmp);
    assert RowOf(row, i, |rows|, m, hashKey, name);
    if name(x) in m {
      assert Covered(rows, m, name(x), hashKey, name) && ConsistentAt(hashKey, hashCmp, name, m[name(x)], x);
      var l :| 0 <= l < |row| && row[l] == Entry(hashKey(x), m[name(x)]);
      assert Matches(row[l], hashKey(x), x, hashCmp);
    }
    if k < |row| {
      assert ConsistentAt(hashKey, hashCmp, name, row[k].data, x) && InRow(row[k], i, |rows|, m, hashKey, name);
    }
  }

  lemma InsertedRow<K, T>(row: seq<Entry<T>>, i: nat, size: nat, m: map<K, T>, hashKey: T -> nat, name: T -> K, x: T)
    requires size > 0 && RowOf(row, i, size, m, hashKey, name) && name(x) !in m
    ensures RowOf(row, i, size, m[name(x) := x], hashKey, name)
    ensures hashKey(x) % size == i ==> RowOf([Entry(hashKey(x), x)] + row, i, size, m[name(x) := x], hashKey, name)
  {
    var m', row' := m[name(x) := x], [Entry(hashKey(x), x)] + row;
    forall k | 0 <= k < |row| ensures InRow(row[k], i, size, m', hashKey, name) && name(row[k].data) != name(x) {
      assert InRow(row[k], i, size, m, hashKey, name);
    }
    forall k, l ensures OtherName(row', k, l, name) {
      assert OtherName(row, k - 1, l - 1, name);
    }
  }

  lemma InsertedCover<K, T>(rows: seq<seq<Entry<T>>>, m: map<K, T>, n: K, hashKey: T -> nat, name: T -> K, x: T)
    requires |rows| > 0 && name(x) !in m && (n in m ==> Covered(rows, m, n, hashKey, name)) && (n in m || n == name(x))
    ensures var i := hashKey(x) % |rows|;
      Covered(rows[i := [Entry(hashKey(x), x)] + rows[i]], m[name(x) := x], n, hashKey, name)
  {
    var i := hashKey(x) % |rows|;
    assert ([Entry(hashKey(x), x)] + rows[i])[0] == Entry(hashKey(x), x);
  }

  /** A datum of a new name put in front of its row. */
  lemma Inserted<K, T>(rows: seq<seq<Entry<T>>>, m: map<K, T>, hashKey: T -> nat, name: T -> K, x: T)
    requires Represents(rows, m, hashKey, name) && name(x) !in m
    ensures var i := hashKey(x) % |rows|;
      Represents(rows[i := [Entry(hashKey(x), x)] + rows[i]], m[name(x) := x], hashKey, name)
  {
    var i, m' := hashKey(x) % |rows|, m[name(x) := x];
    var rows' := rows[i := [Entry(hashKey(x), x)] + rows[i]];
    forall j | 0 <= j < |rows| ensures RowOf(rows'[j], j, |rows|, m', hashKey, name) {
      InsertedRow(rows[j], j, |rows|, m, hashKey, name, x);
    }
    forall n | n in m' ensures Covered(rows', m', n, hashKey, name) {
      InsertedCover(rows, m, n, hashKey, name, x);
    }
  }

  /** `hash_get` on the table is lookup or insertion on the map. */
  lemma GetRefines<K, T(!new)>(rows: seq<seq<Entry<T>>>, m: map<K, T>, hashKey: T -> nat, hashCmp: (T, T) -> bool,
                                      name: T -> K, x: T, alloc: Alloc<T>)
    requires Represents(rows, m, hashKey, name) && Consistent(hashKey, hashCmp, name)
    requires alloc.Alloc? && alloc.result.Some? ==> name(alloc.result.value) == name(x)
    ensures GetRows(rows, x, alloc, hashKey, hashCmp).1 == Got(m, name(x), alloc).1
    ensures Represents(GetRows(rows, x, alloc, hashKey, hashCmp).0, Got(m, name(x), alloc).0, hashKey, name)
  {
    FindRefines(rows, m, hashKey, hashCmp, name, x);
    if name(x) !in m && alloc.Alloc? && alloc.result.Some? {
      assert ConsistentAt(hashKey, hashCmp, name, alloc.result.value, x);
      Inserted(rows, m, hashKey, name, alloc.result.value);
    }
  }

  lemma RemovedRow<K, T>(row: seq<Entry<T>>, i: nat, size: nat, m: map<K, T>, hashKey: T -> nat, name: T -> K, k: nat)
    requires RowOf(row, i, size, m, hashKey, name) && k < |row|
    ensures RowOf(Without(row, k), i, size, m - {name(row[k].data)}, hashKey, name)
  {
    var row', m' := Without(row, k), m - {name(row[k].data)};
    forall l | 0 <= l < |row'| ensures InRow(row'[l], i, size, m', hashKey, name) {
      assert OtherName(row, k, l + 1, name) && OtherName(row, l, k, name);
      assert InRow(row[if l < k then l else l + 1], i, size, m, hashKey, name);
    }
    forall a, b ensures OtherName(row', a, b, name) {
      assert OtherName(row, if a < k then a else a + 1, if b < k then b else b + 1, name);
    }
  }

  lemma OtherRow<K, T>(row: seq<Entry<T>>, i: nat, size: nat, m: map<K, T>, hashKey: T -> nat, name: T -> K, e: Entry<T>)
    requires RowOf(row, i, size, m, hashKey, name) && size > 0 && e.key == hashKey(e.data) && e.key % size != i
    requires name(e.data) in m && m[name(e.data)] == e.data
    ensures RowOf(row, i, size, m - {name(e.data)}, hashKey, name)
  {
    forall k | 0 <= k < |row| ensures InRow(row[k], i, size, m - {name(e.data)}, hashKey, name) {
      assert InRow(row[k], i, size, m, hashKey, name);
    }
  }

  lemma RemovedCover<K, T>(rows: seq<seq<Entry<T>>>, m: map<K, T>, n: K, hashKey: T -> nat, name: T -> K, i: nat, k: nat)
    requires i < |rows| && k < |rows[i]| && n in m && n != name(rows[i][k].data) && Covered(rows, m, n, hashKey, name)
    ensures Covered(rows[i := Without(rows[i], k)], m - {name(rows[i][k].data)}, n, hashKey, name)
  {
    var j := hashKey(m[n]) % |rows|;
    if j == i {
      var l :| 0 <= l < |rows[i]| && rows[i][l] == Entry(hashKey(m[n]), m[n]);
      assert Without(rows[i], k)[if l < k then l else l - 1] == rows[i][l];
    }
  }

  /** An entry taken out of its row. */
  lemma Removed<K, T>(rows: seq<seq<Entry<T>>>, m: map<K, T>, hashKey: T -> nat, name: T -> K, i: nat, k: nat)
    requires Represents(rows, m, hashKey, name) && i < |rows| && k < |rows[i]|
    ensures var e := rows[i][k]; InRow(e, i, |rows|, m, hashKey, name)
    ensures Represents(rows[i := Without(rows[i], k)], m - {name(rows[i][k].data)}, hashKey, name)
  {
    var e := rows[i][k];
    assert RowOf(rows[i], i, |rows|, m, hashKey, name);
    assert InRow(e, i, |rows|, m, hashKey, name);
    var m', rows' := m - {name(e.data)}, rows[i := Without(rows[i], k)];
    forall j | 0 <= j < |rows| ensures RowOf(rows'[j], j, |rows|, m', hashKey, name) {
      if j == i {
        RemovedRow(rows[i], i, |rows|, m, hashKey, name, k);
      } else {
        OtherRow(rows[j], j, |rows|, m, hashKey, name, e);
      }
    }
    forall n | n in m' ensures Covered(rows', m', n, hashKey, name) {
      RemovedCover(rows, m, n, hashKey, name, i, k);
    }
  }

  /** `hash_release` on the table is removal on the map. */
  lemma ReleaseRefines<K, T(!new)>(rows: seq<seq<Entry<T>>>, m: map<K, T>, hashKey: T -> nat,
                                          hashCmp: (T, T) -> bool, name: T -> K, x: T)
    requires Represents(rows, m, hashKey, name) && Consistent(hashKey, hashCmp, name)
    ensures ReleaseRows(rows, x, hashKey, hashCmp).1 == Released(m, name(x)).1
    ensures Represents(ReleaseRows(rows, x, hashKey, hashCmp).0, Released(m, name(x)).0, hashKey, name)
  {
    var i := hashKey(x) % |rows|;
    FindRefines(rows, m, hashKey, hashCmp, name, x);
    if name(x) in m {
      assert Covered(rows, m, name(x), hashKey, name);
      Removed(rows, m, hashKey, name, i, Find(rows[i], hashKey(x), x, hashCmp));
    }
  }

  // ----- going through the table -----

  /** All entries, row after row. */
  function Flat<T>(rows: seq<seq<T>>): seq<T>
  {
    if rows == [] then [] else Flat(rows[..|rows| - 1]) + rows[|rows| - 1]
  }

  /** The entries of a row that are not dropped. */
  function Sift<T>(row: seq<Entry<T>>, drop: T -> bool): (r: seq<Entry<T>>)
    ensures |r| <= |row|
  {
    if row == [] then []
    else Sift(row[..|row| - 1], drop) + if drop(row[|row| - 1].data) then [] else [row[|row| - 1]]
  }

  lemma {:induction false} SiftMembers<T>(row: seq<Entry<T>>, drop: T -> bool, e: Entry<T>)
    ensures e in Sift(row, drop) <==> e in row && !drop(e.data)
  {
    if row != [] {
      SiftMembers(row[..|row| - 1], drop, e);
      assert row == row[..|row| - 1] + [row[|row| - 1]];
    }
  }

  /** The map without the data that are dropped. */
  function SiftMap<K(==), T>(m: map<K, T>, drop: T -> bool): map<K, T>
  {
    map n | n in m && !drop(m[n]) :: m[n]
  }

  /** Dropping the next entry of a row that is sifted up to there. */
  lemma SiftStep<T>(row: seq<Entry<T>>, drop: T -> bool, k: nat)
    requires k < |row|
    ensures var p := |Sift(row[..k], drop)|; var now := Sift(row[..k], drop) + row[k..];
      && p < |now| && now[p] == row[k]
      && Sift(row[..k + 1], drop) + row[k + 1..] == (if drop(row[k].data) then Without(now, p) else now)
      && |Sift(row[..k + 1], drop)| == if drop(row[k].data) then p else p + 1
  {
    assert row[..k + 1][..k] == row[..k] && row[..k + 1][k] == row[k];
    assert row[k..] == [row[k]] + row[k + 1..];
    WithoutMiddle(Sift(row[..k], drop), row[k], row[k + 1..]);
  }

  lemma WithoutMiddle<T>(a: seq<T>, x: T, b: seq<T>)
    ensures Without(a + ([x] + b), |a|) == a + b && a + ([x] + b) == (a + [x]) + b
  {
  }

  /** A table in which row `i`, which held `row`, is sifted up to its `k`th entry. */
  function Partway<T>(rows: seq<seq<Entry<T>>>, i: nat, k: nat, drop: T -> bool): seq<seq<Entry<T>>>
    requires i < |rows| && k <= |rows[i]|
  {
    rows[i := Sift(rows[i][..k], drop) + rows[i][k..]]
  }

  /** One more entry sifted. */
  lemma PartwayStep<T>(rows: seq<seq<Entry<T>>>, i: nat, k: nat, drop: T -> bool)
    requires i < |rows| && k < |rows[i]|
    ensures var now := Partway(rows, i, k, drop); var p := |Sift(rows[i][..k], drop)|;
      && p < |now[i]| && now[i][p] == rows[i][k]
      && Partway(rows, i, k + 1, drop) == (if drop(rows[i][k].data) then now[i := Without(now[i], p)] else now)
      && |Sift(rows[i][..k + 1], drop)| == if drop(rows[i][k].data) then p else p + 1
  {
    SiftStep(rows[i], drop, k);
  }

  lemma PartwayEnds<T>(rows: seq<seq<Entry<T>>>, i: nat, drop: T -> bool)
    requires i < |rows|
    ensures Partway(rows, i, 0, drop) == rows
    ensures Partway(rows, i, |rows[i]|, drop) == rows[i := Sift(rows[i], drop)]
  {
    var row := rows[i];
    assert row[..0] == [] && row[0..] == row && row[..|row|] == row && row[|row|..] == [];
    assert Sift(row[..0], drop) + row[0..] == row;
    assert Sift(row[..|row|], drop) + row[|row|..] == Sift(row, drop);
  }

  lemma Prefixes<T>(s: seq<T>, k: nat)
    requires k <= |s|
    ensures s[..|s|] == s && (k < |s| ==> s[..k + 1] == s[..k] + [s[k]])
  {
  }

  lemma FlatStep<T>(rows: seq<seq<T>>, i: nat)
    requires i < |rows|
    ensures Flat(rows[..i + 1]) == Flat(rows[..i]) + rows[i]
  {
    assert rows[..i + 1][..i] == rows[..i];
  }

  /** The first `i` rows are sifted, the others as they were. */
  ghost predicate SiftedUpTo<T>(rows: seq<seq<Entry<T>>>, rows': seq<seq<Entry<T>>>, drop: T -> bool, i: nat)
  {
    |rows'| == |rows| && forall j :: 0 <= j < |rows| ==> rows'[j] == if j < i then Sift(rows[j], drop) else rows[j]
  }

  lemma SiftedStep<T>(rows: seq<seq<Entry<T>>>, rows': seq<seq<Entry<T>>>, drop: T -> bool, i: nat)
    requires i < |rows| && SiftedUpTo(rows, rows', drop, i)
    ensures rows'[i] == rows[i] && SiftedUpTo(rows, rows'[i := Sift(rows[i], drop)], drop, i + 1)
  {
  }

  /** Every datum of the map, each once. */
  ghost predicate EachOnce<K, T>(seen: seq<Entry<T>>, m: map<K, T>, name: T -> K)
  {
    && |seen| == |m|
    && (forall a :: 0 <= a < |seen| ==> name(seen[a].data) in m && m[name(seen[a].data)] == seen[a].data)
    && (forall a, b :: OtherName(seen, a, b, name))
    && (forall n :: n in m ==> exists a :: 0 <= a < |seen| && name(seen[a].data) == n && seen[a].data == m[n])
  }

  lemma {:induction false} FlatFrom<T>(rows: seq<seq<T>>, e: T)
    requires e in Flat(rows)
    ensures exists i :: 0 <= i < |rows| && e in rows[i]
  {
    var n := |rows| - 1;
    if e !in rows[n] {
      FlatFrom(rows[..n], e);
      var i :| 0 <= i < n && e in rows[..n][i];
      assert e in rows[i];
    }
  }

  lemma {:induction false} FlatHas<T>(rows: seq<seq<T>>, i: nat, e: T)
    requires i < |rows| && e in rows[i]
    ensures e in Flat(rows)
  {
    if i < |rows| - 1 {
      FlatHas(rows[..|rows| - 1], i, e);
    }
  }

  lemma {:induction false} TotalSnoc<T>(rows: seq<seq<T>>, row: seq<T>)
    ensures Total(rows + [row]) == Total(rows) + |row|
  {
    if rows != [] {
      assert (rows + [row])[1..] == rows[1..] + [row];
      TotalSnoc(rows[1..], row);
    } else {
      assert [row][1..] == [];
    }
  }

  lemma {:induction false} FlatLength<T>(rows: seq<seq<T>>)
    ensures |Flat(rows)| == Total(rows)
  {
    if rows != [] {
      var n := |rows| - 1;
      FlatLength(rows[..n]);
      TotalSnoc(rows[..n], rows[n]);
      assert rows == rows[..n] + [rows[n]];
    }
  }

  /** Entries of one name are one entry, over all rows up to the `n`th. */
  lemma {:induction false} FlatNames<K, T>(rows: seq<seq<Entry<T>>>, m: map<K, T>, hashKey: T -> nat, name: T -> K, n: nat, a: int, b: int)
    requires n <= |rows| && forall i :: 0 <= i < n ==> RowOf(rows[i], i, |rows|, m, hashKey, name)
    ensures OtherName(Flat(rows[..n]), a, b, name)
  {
    var all := Flat(rows[..n]);
    if 0 <= a < b < |all| {
      var front, last := Flat(rows[..n - 1]), rows[n - 1];
      assert rows[..n][..n - 1] == rows[..n - 1] && all == front + last;
      assert RowOf(last, n - 1, |rows|, m, hashKey, name);
      if b < |front| {
        FlatNames(rows, m, hashKey, name, n - 1, a, b);
      } else if a >= |front| {
        assert OtherName(last, a - |front|, b - |front|, name);
      } else {
        AcrossRows(rows, m, hashKey, name, n - 1, front[a], b - |front|);
      }
    }
  }

  lemma AcrossRows<K, T>(rows: seq<seq<Entry<T>>>, m: map<K, T>, hashKey: T -> nat, name: T -> K, n: nat, e: Entry<T>, k: nat)
    requires n < |rows| && e in Flat(rows[..n]) && k < |rows[n]|
    requires forall i :: 0 <= i <= n ==> RowOf(rows[i], i, |rows|, m, hashKey, name)
    ensures name(e.data) != name(rows[n][k].data)
  {
    FlatFrom(rows[..n], e);
    var i :| 0 <= i < n && e in rows[..n][i];
    var l :| 0 <= l < |rows[i]| && rows[i][l] == e;
    assert RowOf(rows[i], i, |rows|, m, hashKey, name) && RowOf(rows[n], n, |rows|, m, hashKey, name);
    assert InRow(rows[i][l], i, |rows|, m, hashKey, name) && InRow(rows[n][k], n, |rows|, m, hashKey, name);
  }

  lemma {:induction false} NamesCount<K, T>(seen: seq<Entry<T>>, names: set<K>, name: T -> K)
    requires forall a, b :: OtherName(seen, a, b, name)
    requires forall a :: 0 <= a < |seen| ==> name(seen[a].data) in names
    requires forall n :: n in names ==> exists a :: 0 <= a < |seen| && name(seen[a].data) == n
    ensures |seen| == |names|
  {
    if seen == [] {
      assert names == {};
    } else {
      var k := |seen| - 1;
      var front, n := seen[..k], name(seen[k].data);
      forall a, b ensures OtherName(front, a, b, name) {
        assert OtherName(seen, a, b, name);
      }
      forall a | 0 <= a < k ensures name(front[a].data) in names - {n} {
        assert OtherName(seen, a, k, name);
      }
      forall o | o in names - {n} ensures exists a :: 0 <= a < k && name(front[a].data) == o {
        var a :| 0 <= a < |seen| && name(seen[a].data) == o;
        assert front[a] == seen[a];
      }
      NamesCount(front, names - {n}, name);
    }
  }

  /** Going through all rows meets every datum of the map, each once. */
  lemma FlatEachOnce<K, T>(rows: seq<seq<Entry<T>>>, m: map<K, T>, hashKey: T -> nat, name: T -> K)
    requires Represents(rows, m, hashKey, name)
    ensures EachOnce(Flat(rows), m, name)
  {
    var all := Flat(rows);
    assert rows[..|rows|] == rows;
    forall a, b ensures OtherName(all, a, b, name) {
      FlatNames(rows, m, hashKey, name, |rows|, a, b);
    }
    forall a | 0 <= a < |all| ensures name(all[a].data) in m && m[name(all[a].data)] == all[a].data {
      FlatFrom(rows, all[a]);
      var i :| 0 <= i < |rows| && all[a] in rows[i];
      EntryKnown(rows, m, hashKey, name, i, all[a]);
    }
    forall n | n in m ensures exists a :: 0 <= a < |all| && name(all[a].data) == n && all[a].data == m[n] {
      assert Covered(rows, m, n, hashKey, name);
      FlatHas(rows, hashKey(m[n]) % |rows|, Entry(hashKey(m[n]), m[n]));
      var a :| 0 <= a < |all| && all[a] == Entry(hashKey(m[n]), m[n]);
      assert name(all[a].data) == n && all[a].data == m[n];
    }
    NamesCount(all, m.Keys, name);
  }

  /** The number of entries is the size of the map. */
  lemma CountExact<K, T>(rows: seq<seq<Entry<T>>>, m: map<K, T>, hashKey: T -> nat, name: T -> K)
    requires Represents(rows, m, hashKey, name)
    ensures Total(rows) == |m|
  {
    FlatEachOnce(rows, m, hashKey, name);
    FlatLength(rows);
  }

  /** An entry of the rows is one of the map. */
  lemma EntryKnown<K, T>(rows: seq<seq<Entry<T>>>, m: map<K, T>, hashKey: T -> nat, name: T -> K, i: nat, e: Entry<T>)
    requires Represents(rows, m, hashKey, name) && i < |rows| && e in rows[i]
    ensures name(e.data) in m && m[name(e.data)] == e.data
  {
    var l :| 0 <= l < |rows[i]| && rows[i][l] == e;
    assert RowOf(rows[i], i, |rows|, m, hashKey, name) && InRow(rows[i][l], i, |rows|, m, hashKey, name);
  }

  ghost predicate SiftedRows<T>(rows: seq<seq<Entry<T>>>, rows': seq<seq<Entry<T>>>, drop: T -> bool)
  {
    |rows'| == |rows| && forall i :: 0 <= i < |rows| ==> rows'[i] == Sift(rows[i], drop)
  }

  lemma {:induction false} SiftNames<K, T>(row: seq<Entry<T>>, drop: T -> bool, name: T -> K, a: int, b: int)
    requires forall k, l :: OtherName(row, k, l, name)
    ensures OtherName(Sift(row, drop), a, b, name)
  {
    if row != [] {
      var n := |row| - 1;
      var front, r := row[..n], Sift(row[..n], drop);
      forall k, l ensures OtherName(front, k, l, name) {
        assert OtherName(row, k, l, name);
      }
      SiftNames(front, drop, name, a, b);
      if 0 <= a < b == |r| {
        SiftMembers(front, drop, r[a]);
        var k :| 0 <= k < n && front[k] == r[a];
        assert OtherName(row, k, n, name);
      }
    }
  }

  lemma SiftedRow<K, T>(row: seq<Entry<T>>, i: nat, size: nat, m: map<K, T>, hashKey: T -> nat, name: T -> K, drop: T -> bool)
    requires RowOf(row, i, size, m, hashKey, name)
    ensures RowOf(Sift(row, drop), i, size, SiftMap(m, drop), hashKey, name)
  {
    var r := Sift(row, drop);
    forall k | 0 <= k < |r| ensures InRow(r[k], i, size, SiftMap(m, drop), hashKey, name) {
      SiftMembers(row, drop, r[k]);
      var l :| 0 <= l < |row| && row[l] == r[k];
      assert InRow(row[l], i, size, m, hashKey, name);
    }
    forall a, b ensures OtherName(r, a, b, name) {
      SiftNames(row, drop, name, a, b);
    }
  }

  lemma SiftedCover<K, T>(rows: seq<seq<Entry<T>>>, m: map<K, T>, n: K, rows': seq<seq<Entry<T>>>,
                          hashKey: T -> nat, name: T -> K, drop: T -> bool)
    requires |rows| > 0 && n in m && !drop(m[n]) && Covered(rows, m, n, hashKey, name) && SiftedRows(rows, rows', drop)
    ensures Covered(rows', SiftMap(m, drop), n, hashKey, name)
  {
    SiftMembers(rows[hashKey(m[n]) % |rows|], drop, Entry(hashKey(m[n]), m[n]));
  }

  /** Sifting the rows is sifting the map. */
  lemma SiftRefines<K, T>(rows: seq<seq<Entry<T>>>, m: map<K, T>, rows': seq<seq<Entry<T>>>,
                          hashKey: T -> nat, name: T -> K, drop: T -> bool)
    requires Represents(rows, m, hashKey, name) && SiftedRows(rows, rows', drop)
    ensures Represents(rows', SiftMap(m, drop), hashKey, name)
  {
    forall i | 0 <= i < |rows| ensures RowOf(rows'[i], i, |rows|, SiftMap(m, drop), hashKey, name) {
      SiftedRow(rows[i], i, |rows|, m, hashKey, name, drop);
    }
    forall n | n in SiftMap(m, drop) ensures Covered(rows', SiftMap(m, drop), n, hashKey, name) {
      SiftedCover(rows, m, n, rows', hashKey, name, drop);
    }
  }

  // ----- finding an entry again -----

  /** The datum of an entry is found at that entry. */
  predicate FindsItself<T>(rows: seq<seq<Entry<T>>>, hashKey: T -> nat, hashCmp: (T, T) -> bool, i: int, k: int)
  {
    0 <= i < |rows| && 0 <= k < |rows[i]| ==>
      var x := rows[i][k].data;
      hashKey(x) % |rows| == i && Find(rows[i], hashKey(x), x, hashCmp) == k
  }

  ghost predicate Tidy<T>(rows: seq<seq<Entry<T>>>, hashKey: T -> nat, hashCmp: (T, T) -> bool)
  {
    forall i, k :: FindsItself(rows, hashKey, hashCmp, i, k)
  }

  lemma FindUnique<T>(row: seq<Entry<T>>, key: nat, x: T, hashCmp: (T, T) -> bool, k: nat)
    requires FoundAt(row, key, x, hashCmp, k)
    ensures k == Find(row, key, x, hashCmp)
  {
    assert FoundAt(row, key, x, hashCmp, Find(row, key, x, hashCmp));
  }

  /** With consistent functions every entry is found again: no other has its name. */
  lemma ConsistentIsTidy<K, T(!new)>(rows: seq<seq<Entry<T>>>, m: map<K, T>, hashKey: T -> nat, hashCmp: (T, T) -> bool, name: T -> K)
    requires Represents(rows, m, hashKey, name) && Consistent(hashKey, hashCmp, name)
    ensures Tidy(rows, hashKey, hashCmp)
  {
    forall i, p ensures FindsItself(rows, hashKey, hashCmp, i, p) {
      if 0 <= i < |rows| && 0 <= p < |rows[i]| {
        var x := rows[i][p].data;
        assert RowOf(rows[i], i, |rows|, m, hashKey, name) && InRow(rows[i][p], i, |rows|, m, hashKey, name);
        FindRefines(rows, m, hashKey, hashCmp, name, x);
        var k := Find(rows[i], hashKey(x), x, hashCmp);
        assert OtherName(rows[i], k, p, name) && OtherName(rows[i], p, k, name);
      }
    }
  }

  lemma StillTidy<T>(rows: seq<seq<Entry<T>>>, hashKey: T -> nat, hashCmp: (T, T) -> bool, i: nat, p: nat)
    requires Tidy(rows, hashKey, hashCmp) && i < |rows| && p < |rows[i]|
    ensures Tidy(rows[i := Without(rows[i], p)], hashKey, hashCmp)
  {
    var rows' := rows[i := Without(rows[i], p)];
    forall j, k ensures FindsItself(rows', hashKey, hashCmp, j, k) {
      if j == i && 0 <= k < |rows'[i]| {
        var l := if k < p then k else k + 1;
        assert FindsItself(rows, hashKey, hashCmp, i, l);
        var x := rows[i][l].data;
        FindUnique(rows'[i], hashKey(x), x, hashCmp, k);
      } else {
        assert FindsItself(rows, hashKey, hashCmp, j, k);
      }
    }
  }
}
