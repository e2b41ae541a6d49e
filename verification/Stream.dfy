/**
 The byte stream of misaka/lib/stream.c: a buffer with a place to read from and a place to
 write to.  Out of bounds the code warns and asserts; what is modelled there is what follows
 when the assertion is compiled out.
 */
module Stream {
  import opened Options
  import opened StreamCodec

  function Min(x: nat, y: nat): nat
  {
    if x <= y then x else y
  }

  /** Byte after byte is all at once. */
  lemma UpdatesAreSplice(s: seq<bv8>, at: nat, part: seq<bv8>, r: seq<bv8>)
    requires at + |part| <= |s| == |r|
    requires forall k :: 0 <= k < |part| ==> r[at + k] == part[k]
    requires r[..at] == s[..at] && r[at + |part|..] == s[at + |part|..]
    ensures r == Splice(s, at, part)
  {
    assert r == r[..at] + r[at..at + |part|] + r[at + |part|..];
    assert r[at..at + |part|] == part;
  }

  lemma SpliceTwice(s: seq<bv8>, at: nat, p: seq<bv8>, q: seq<bv8>)
    requires at + |p| + |q| <= |s|
    ensures Splice(Splice(s, at, p), at + |p|, q) == Splice(s, at, p + q)
  {
  }

  lemma SpliceEnd(s: seq<bv8>, at: nat, part: seq<bv8>)
    requires at + |part| <= |s|
    ensures Splice(s, at, part)[..at + |part|] == s[..at] + part
  {
  }

  lemma SpliceWithin(s: seq<bv8>, end: nat, at: nat, part: seq<bv8>)
    requires at + |part| <= end <= |s|
    ensures Splice(s, at, part)[..end] == Splice(s[..end], at, part)
  {
  }

  class Stream {
    var data: array<bv8>
    var getp: nat
    var endp: nat
    var size: nat

    /** `STREAM_VERIFY_SANE` */
    ghost predicate Valid()
      reads this
    {
      getp <= endp <= size == data.Length
    }

    ghost function Written(): (s: seq<bv8>)
      reads this, data
      requires Valid()
      ensures |s| == endp
    {
      data[..endp]
    }

    /** `stream_new` */
    constructor (size: nat)
      requires size > 0
      ensures Valid() && fresh(data) && this.size == size && getp == 0 && Written() == []
    {
      data := new bv8[size];
      this.size, getp, endp := size, 0, 0;
    }

    /** The bytes of a value, one after the other. */
    method StoreC(at: nat, c: bv8)
      requires Valid() && at + 1 <= size
      modifies data
      ensures data[..] == Splice(old(data[..]), at, Encode(C(c)))
    {
      data[at] := c;
      UpdatesAreSplice(old(data[..]), at, Encode(C(c)), data[..]);
    }

    /** The bytes of a value, one after the other. */
    method StoreW(at: nat, w: bv16)
      requires Valid() && at + 2 <= size
      modifies data
      ensures data[..] == Splice(old(data[..]), at, Encode(W(w)))
    {
      data[at] := ((w >> 8) & 0xff) as bv8;
      data[at + 1] := (w & 0xff) as bv8;
      UpdatesAreSplice(old(data[..]), at, Encode(W(w)), data[..]);
    }

    /** Four bytes, one after the other. */
    method StoreFour(at: nat, b0: bv8, b1: bv8, b2: bv8, b3: bv8)
      requires Valid() && at + 4 <= size
      modifies data
      ensures data[..] == Splice(old(data[..]), at, [b0, b1, b2, b3])
    {
      data[at] := b0;
      data[at + 1] := b1;
      data[at + 2] := b2;
      data[at + 3] := b3;
      UpdatesAreSplice(old(data[..]), at, [b0, b1, b2, b3], data[..]);
    }

    /** The bytes of a value, one after the other. */
    method StoreL(at: nat, l: bv32)
      requires Valid() && at + 4 <= size
      modifies data
      ensures data[..] == Splice(old(data[..]), at, Encode(L(l)))
    {
      StoreFour(at, ((l >> 24) & 0xff) as bv8, ((l >> 16) & 0xff) as bv8, ((l >> 8) & 0xff) as bv8, (l & 0xff) as bv8);
    }

    /** The bytes of a value, one after the other. */
    method StoreQ(at: nat, q: bv64)
      requires Valid() && at + 8 <= size
      modifies data
      ensures data[..] == Splice(old(data[..]), at, Encode(Q(q)))
    {
      SpliceTwice(data[..], at, QuadBytes(q)[..4], QuadBytes(q)[4..]);
      StoreFour(at, ((q >> 56) & 0xff) as bv8, ((q >> 48) & 0xff) as bv8, ((q >> 40) & 0xff) as bv8, ((q >> 32) & 0xff) as bv8);
      StoreFour(at + 4, ((q >> 24) & 0xff) as bv8, ((q >> 16) & 0xff) as bv8, ((q >> 8) & 0xff) as bv8, (q & 0xff) as bv8);
    }

    /** `stream_putc` */
    method PutC(c: bv8) returns (n: nat)
      requires Valid()
      modifies this`endp, data
      ensures Valid() && n == (if old(endp) + 1 <= size then 1 else 0)
      ensures Written() == old(Written()) + if n == 0 then [] else Encode(C(c))
    {
      if size - endp < 1 {
        return 0;
      }
      SpliceEnd(data[..], endp, Encode(C(c)));
      StoreC(endp, c);
      endp := endp + 1;
      return 1;
    }

    /** `stream_putw` */
    method PutW(w: bv16) returns (n: nat)
      requires Valid()
      modifies this`endp, data
      ensures Valid() && n == (if old(endp) + 2 <= size then 2 else 0)
      ensures Written() == old(Written()) + if n == 0 then [] else Encode(W(w))
    {
      if size - endp < 2 {
        return 0;
      }
      SpliceEnd(data[..], endp, Encode(W(w)));
      StoreW(endp, w);
      endp := endp + 2;
      return 2;
    }

    /** `stream_putl` */
    method PutL(l: bv32) returns (n: nat)
      requires Valid()
      modifies this`endp, data
      ensures Valid() && n == (if old(endp) + 4 <= size then 4 else 0)
      ensures Written() == old(Written()) + if n == 0 then [] else Encode(L(l))
    {
      if size - endp < 4 {
        return 0;
      }
      SpliceEnd(data[..], endp, Encode(L(l)));
      StoreL(endp, l);
      endp := endp + 4;
      return 4;
    }

    /** `stream_putq` */
    method PutQ(q: bv64) returns (n: nat)
      requires Valid()
      modifies this`endp, data
      ensures Valid() && n == (if old(endp) + 8 <= size then 8 else 0)
      ensures Written() == old(Written()) + if n == 0 then [] else Encode(Q(q))
    {
      if size - endp < 8 {
        return 0;
      }
      SpliceEnd(data[..], endp, Encode(Q(q)));
      StoreQ(endp, q);
      endp := endp + 8;
      return 8;
    }

    /** `stream_putc_at` */
    method PutCAt(putp: nat, c: bv8) returns (n: nat)
      requires Valid()
      modifies data
      ensures n == (if putp + 1 <= endp then 1 else 0)
      ensures Written() == if n == 0 then old(Written()) else Splice(old(Written()), putp, Encode(C(c)))
    {
      if putp + 1 > endp {
        return 0;
      }
      SpliceWithin(data[..], endp, putp, Encode(C(c)));
      StoreC(putp, c);
      return 1;
    }

    /** `stream_putw_at` */
    method PutWAt(putp: nat, w: bv16) returns (n: nat)
      requires Valid()
      modifies data
      ensures n == (if putp + 2 <= endp then 2 else 0)
      ensures Written() == if n == 0 then old(Written()) else Splice(old(Written()), putp, Encode(W(w)))
    {
      if putp + 2 > endp {
        return 0;
      }
      SpliceWithin(data[..], endp, putp, Encode(W(w)));
      StoreW(putp, w);
      return 2;
    }

    /** `stream_putl_at` */
    method PutLAt(putp: nat, l: bv32) returns (n: nat)
      requires Valid()
      modifies data
      ensures n == (if putp + 4 <= endp then 4 else 0)
      ensures Written() == if n == 0 then old(Written()) else Splice(old(Written()), putp, Encode(L(l)))
    {
      if putp + 4 > endp {
        return 0;
      }
      SpliceWithin(data[..], endp, putp, Encode(L(l)));
      StoreL(putp, l);
      return 4;
    }

    /** `stream_putq_at` */
    method PutQAt(putp: nat, q: bv64) returns (n: nat)
      requires Valid()
      modifies data
      ensures n == (if putp + 8 <= endp then 8 else 0)
      ensures Written() == if n == 0 then old(Written()) else Splice(old(Written()), putp, Encode(Q(q)))
    {
      if putp + 8 > endp {
        return 0;
      }
      SpliceWithin(data[..], endp, putp, Encode(Q(q)));
      StoreQ(putp, q);
      return 8;
    }

    /** `stream_getc_from` */
    method GetCFrom(from: nat) returns (c: bv8)
      requires Valid()
      ensures C(c) == if from + 1 <= endp then Decode(Char, Written()[from..from + 1]) else C(0)
    {
      if from + 1 > endp {
        return 0;
      }
      ghost var s := Written()[from..from + 1];
      assert forall k :: 0 <= k < 1 ==> s[k] == data[from + k];
      c := data[from];
    }

    /** `stream_getw_from` */
    method GetWFrom(from: nat) returns (w: bv16)
      requires Valid()
      ensures W(w) == if from + 2 <= endp then Decode(Word, Written()[from..from + 2]) else W(0)
    {
      if from + 2 > endp {
        return 0;
      }
      ghost var s := Written()[from..from + 2];
      assert forall k :: 0 <= k < 2 ==> s[k] == data[from + k];
      w := (data[from] as bv16) << 8;
      w := w | (data[from + 1] as bv16);
    }

    /** `stream_getl_from` */
    method GetLFrom(from: nat) returns (l: bv32)
      requires Valid()
      ensures L(l) == if from + 4 <= endp then Decode(Long, Written()[from..from + 4]) else L(0)
    {
      if from + 4 > endp {
        return 0;
      }
      ghost var s := Written()[from..from + 4];
      assert forall k :: 0 <= k < 4 ==> s[k] == data[from + k];
      l := (data[from] as bv32) << 24;
      l := l | ((data[from + 1] as bv32) << 16);
      l := l | ((data[from + 2] as bv32) << 8);
      l := l | (data[from + 3] as bv32);
    }

    /** `stream_getq_from` */
    method GetQFrom(from: nat) returns (q: bv64)
      requires Valid()
      ensures Q(q) == if from + 8 <= endp then Decode(Quad, Written()[from..from + 8]) else Q(0)
    {
      if from + 8 > endp {
        return 0;
      }
      ghost var s := Written()[from..from + 8];
      assert forall k :: 0 <= k < 8 ==> s[k] == data[from + k];
      q := (data[from] as bv64) << 56;
      q := q | ((data[from + 1] as bv64) << 48);
      q := q | ((data[from + 2] as bv64) << 40);
      q := q | ((data[from + 3] as bv64) << 32);
      q := q | ((data[from + 4] as bv64) << 24);
      q := q | ((data[from + 5] as bv64) << 16);
      q := q | ((data[from + 6] as bv64) << 8);
      q := q | (data[from + 7] as bv64);
    }

    /** `stream_getc` */
    method GetC() returns (c: bv8)
      requires Valid()
      modifies this`getp
      ensures Valid() && getp == if old(getp) + 1 <= endp then old(getp) + 1 else old(getp)
      ensures C(c) == if old(getp) + 1 <= endp then Decode(Char, Written()[old(getp)..old(getp) + 1]) else C(0)
    {
      if endp - getp < 1 {
        return 0;
      }
      ghost var s := Written()[getp..getp + 1];
      assert forall k :: 0 <= k < 1 ==> s[k] == data[getp + k];
      c := data[getp];
      getp := getp + 1;
    }

    /** `stream_getw` */
    method GetW() returns (w: bv16)
      requires Valid()
      modifies this`getp
      ensures Valid() && getp == if old(getp) + 2 <= endp then old(getp) + 2 else old(getp)
      ensures W(w) == if old(getp) + 2 <= endp then Decode(Word, Written()[old(getp)..old(getp) + 2]) else W(0)
    {
      if endp - getp < 2 {
        return 0;
      }
      ghost var s := Written()[getp..getp + 2];
      assert forall k :: 0 <= k < 2 ==> s[k] == data[getp + k];
      w := (data[getp] as bv16) << 8;
      w := w | (data[getp + 1] as bv16);
      getp := getp + 2;
    }

    /** `stream_getl` */
    method GetL() returns (l: bv32)
      requires Valid()
      modifies this`getp
      ensures Valid() && getp == if old(getp) + 4 <= endp then old(getp) + 4 else old(getp)
      ensures L(l) == if old(getp) + 4 <= endp then Decode(Long, Written()[old(getp)..old(getp) + 4]) else L(0)
    {
      if endp - getp < 4 {
        return 0;
      }
      ghost var s := Written()[getp..getp + 4];
      assert forall k :: 0 <= k < 4 ==> s[k] == data[getp + k];
      l := (data[getp] as bv32) << 24;
      l := l | ((data[getp + 1] as bv32) << 16);
      l := l | ((data[getp + 2] as bv32) << 8);
      l := l | (data[getp + 3] as bv32);
      getp := getp + 4;
    }

    /** `stream_getq` */
    method GetQ() returns (q: bv64)
      requires Valid()
      modifies this`getp
      ensures Valid() && getp == if old(getp) + 8 <= endp then old(getp) + 8 else old(getp)
      ensures Q(q) == if old(getp) + 8 <= endp then Decode(Quad, Written()[old(getp)..old(getp) + 8]) else Q(0)
    {
      if endp - getp < 8 {
        return 0;
      }
      ghost var s := Written()[getp..getp + 8];
      assert forall k :: 0 <= k < 8 ==> s[k] == data[getp + k];
      q := (data[getp] as bv64) << 56;
      q := q | ((data[getp + 1] as bv64) << 48);
      q := q | ((data[getp + 2] as bv64) << 40);
      q := q | ((data[getp + 3] as bv64) << 32);
      q := q | ((data[getp + 4] as bv64) << 24);
      q := q | ((data[getp + 5] as bv64) << 16);
      q := q | ((data[getp + 6] as bv64) << 8);
      q := q | (data[getp + 7] as bv64);
      getp := getp + 8;
    }

    /** `stream_put`: as much of the source (or of zeroes) as there is room for. */
    method Put(src: Option<seq<bv8>>, length: nat)
      requires Valid() && (src.Some? ==> length <= |src.value|)
      modifies this`endp, data
      ensures Valid() && endp == Min(old(endp) + length, size)
      ensures Written() == old(Written()) +
        if src.Some? then src.value[..endp - old(endp)] else seq(endp - old(endp), _ => 0)
    {
      var n := length;
      if endp + n > size {
        n := size - endp;
      }
      var part := if src.Some? then src.value[..n] else seq(n, _ => 0);
      forall k | 0 <= k < n {
        data[endp + k] := part[k];
      }
      UpdatesAreSplice(old(data[..]), endp, part, data[..]);
      SpliceEnd(old(data[..]), endp, part);
      endp := endp + n;
    }

    /** `stream_get`: all of what is asked for, or nothing. */
    method Get(length: nat) returns (dst: Option<seq<bv8>>)
      requires Valid()
      modifies this`getp
      ensures Valid() && dst == if old(getp) + length <= endp then Some(Written()[old(getp)..old(getp) + length]) else None
      ensures getp == if dst.Some? then old(getp) + length else old(getp)
    {
      if endp - getp < length {
        return None;
      }
      assert data[getp..getp + length] == Written()[getp..getp + length];
      dst := Some(data[getp..getp + length]);
      getp := getp + length;
    }

    /** `stream_resize`: what still fits stays.  `granted` says that the reallocation gives memory. */
    method Resize(newsize: nat, granted: bool) returns (r: nat)
      requires Valid()
      modifies this
      ensures Valid() && r == size
      ensures if granted then size == newsize && fresh(data) else size == old(size) && data == old(data)
      ensures endp == Min(old(endp), size) && getp == Min(old(getp), endp)
      ensures Written() == old(Written())[..endp]
    {
      if !granted {
        return size;
      }
      var newdata := new bv8[newsize];
      forall k | 0 <= k < Min(size, newsize) {
        newdata[k] := data[k];
      }
      data, size := newdata, newsize;
      if endp > size {
        endp := size;
      }
      if getp > endp {
        getp := endp;
      }
      r := size;
    }
  }
}
