/**
 Whole runs of the byte stream of misaka/lib/stream.c against a queue of values and blocks.

 The queue has room for so many bytes more.  What is put is taken in order; values that are
 waiting can be looked at and replaced where they are.
 */
module StreamQueue {
  import opened Options
  import opened StreamCodec
  import Stream

  /** What one call puts: a value, or a block of bytes. */
  datatype Piece = Single(v: Item) | Block(bytes: seq<bv8>)

  /** What one call asks for. */
  datatype Shape = Of(k: Kind) | Bytes(n: nat)

  function ShapeOf(p: Piece): Shape
  {
    match p
    case Single(v) => Of(KindOf(v))
    case Block(bytes) => Bytes(|bytes|)
  }

  function Size(sh: Shape): nat
  {
    match sh
    case Of(k) => Width(k)
    case Bytes(n) => n
  }

  function Code(p: Piece): (s: seq<bv8>)
    ensures |s| == Size(ShapeOf(p))
  {
    match p
    case Single(v) => Encode(v)
    case Block(bytes) => bytes
  }

  function Zero(k: Kind): Item
  {
    match k
    case Char => C(0)
    case Word => W(0)
    case Long => L(0)
    case Quad => Q(0)
  }

  datatype Queue = Queue(pending: seq<Piece>, room: nat)

  /** Places are counted in pieces; the one after the last piece is past the end. */
  datatype Op =
    | Put(p: Piece)
    | Take(sh: Shape)
    | Replace(n: nat, v: Item)
    | Look(n: nat, k: Kind)

  datatype Result = Accepted(n: nat) | Got(p: Piece) | Nothing

  /** How many bytes are waiting. */
  function Total(ps: seq<Piece>): nat
  {
    if ps == [] then 0 else Size(ShapeOf(ps[0])) + Total(ps[1..])
  }

  predicate IsThere(q: Queue, n: nat, sh: Shape)
  {
    n < |q.pending| && ShapeOf(q.pending[n]) == sh
  }

  /** A user asks for what is there, or for more than there is, or past the end. */
  predicate Legal(q: Queue, op: Op)
  {
    match op
    case Put(_) => true
    case Take(sh) => IsThere(q, 0, sh) || Size(sh) > Total(q.pending)
    case Replace(n, v) => IsThere(q, n, Of(KindOf(v))) || n == |q.pending|
    case Look(n, k) => IsThere(q, n, Of(k)) || n == |q.pending|
  }

  /** The part of a piece that is put: a value only whole, a block as far as there is room. */
  function Fitting(p: Piece, room: nat): Option<Piece>
  {
    match p
    case Single(v) => if Width(KindOf(v)) <= room then Some(p) else None
    case Block(bytes) => Some(Block(bytes[..Stream.Min(|bytes|, room)]))
  }

  /** What a read past the end gives. */
  function Past(sh: Shape): Result
  {
    match sh
    case Of(k) => Got(Single(Zero(k)))
    case Bytes(_) => Nothing
  }

  function Do(q: Queue, op: Op): (Queue, Result)
    requires Legal(q, op)
  {
    match op
    case Put(p) =>
      (match Fitting(p, q.room)
       case Some(f) => (Queue(q.pending + [f], if |Code(f)| <= q.room then q.room - |Code(f)| else 0), Accepted(|Code(f)|))
       case None => (q, Accepted(0)))
    case Take(sh) => if IsThere(q, 0, sh) then (q.(pending := q.pending[1..]), Got(q.pending[0])) else (q, Past(sh))
    case Replace(n, v) =>
      if n < |q.pending| then (q.(pending := q.pending[n := Single(v)]), Accepted(Width(KindOf(v)))) else (q, Accepted(0))
    case Look(n, k) => if n < |q.pending| then (q, Got(q.pending[n])) else (q, Past(Of(k)))
  }

  predicate LegalRun(q: Queue, ops: seq<Op>)
    decreases |ops|
  {
    ops == [] || (Legal(q, ops[0]) && LegalRun(Do(q, ops[0]).0, ops[1..]))
  }

  function Results(q: Queue, ops: seq<Op>): seq<Result>
    requires LegalRun(q, ops)
    decreases |ops|
  {
    if ops == [] then [] else [Do(q, ops[0]).1] + Results(Do(q, ops[0]).0, ops[1..])
  }

  // ----- the queue as a log -----

  /**
   All that was ever accepted, in order, with the replacements made, and how many pieces of it
   have been taken.
   */
  datatype Log = Log(pieces: seq<Piece>, taken: nat)

  /** How many bytes of a piece fit: a value only whole, a block as far as there is room. */
  function Accepts(p: Piece, room: nat): nat
  {
    if p.Single? && Size(ShapeOf(p)) > room then 0 else Stream.Min(Size(ShapeOf(p)), room)
  }

  /** What the log becomes, and what is shown, when there is room for `size` bytes in all. */
  ghost predicate Logs(size: nat, l: Log, op: Op, l': Log, r: Result)
  {
    && l.taken <= |l.pieces| && l'.taken <= |l'.pieces|
    && match op
       case Put(p) =>
         && r == Accepted(Accepts(p, Room(size, l)))
         && l'.taken == l.taken
         && (if p.Single? && r.n == 0 then l'.pieces == l.pieces
             else |l'.pieces| == |l.pieces| + 1 && l'.pieces[..|l.pieces|] == l.pieces
                  && Code(l'.pieces[|l.pieces|]) == Code(p)[..r.n] && l'.pieces[|l.pieces|].Single? == p.Single?)
       case Take(sh) =>
         if l.taken < |l.pieces| && ShapeOf(l.pieces[l.taken]) == sh
         then r == Got(l.pieces[l.taken]) && l' == l.(taken := l.taken + 1)
         else l' == l && r == if sh.Of? then Got(Single(Zero(sh.k))) else Nothing
       case Replace(n, v) =>
         if l.taken + n < |l.pieces|
         then r == Accepted(Size(Of(KindOf(v)))) && l' == l.(pieces := l.pieces[l.taken + n := Single(v)])
         else r == Accepted(0) && l' == l
       case Look(n, k) =>
         && l' == l
         && r == Got(if l.taken + n < |l.pieces| then l.pieces[l.taken + n] else Single(Zero(k)))
  }

  /** Room once taken up does not come back. */
  function Room(size: nat, l: Log): nat
  {
    if Total(l.pieces) <= size then size - Total(l.pieces) else 0
  }

  ghost predicate Logged(size: nat, l: Log, q: Queue)
  {
    l.taken <= |l.pieces| && q.pending == l.pieces[l.taken..] && q.room + Total(l.pieces) == size
  }

  function Extend(l: Log, op: Op, q: Queue): Log
    requires Legal(q, op)
  {
    match op
    case Put(p) => if Fitting(p, q.room).Some? then l.(pieces := l.pieces + [Fitting(p, q.room).value]) else l
    case Take(sh) => if IsThere(q, 0, sh) then l.(taken := l.taken + 1) else l
    case Replace(n, v) => if n < |q.pending| && l.taken + n < |l.pieces| then l.(pieces := l.pieces[l.taken + n := Single(v)]) else l
    case Look(_, _) => l
  }

  lemma {:induction false} TotalSnoc(ps: seq<Piece>, p: Piece)
    ensures Total(ps + [p]) == Total(ps) + Size(ShapeOf(p))
  {
    if ps != [] {
      assert (ps + [p])[1..] == ps[1..] + [p];
      TotalSnoc(ps[1..], p);
    } else {
      assert (ps + [p])[1..] == [];
    }
  }

  lemma {:induction false} TotalSame(ps: seq<Piece>, n: nat, p: Piece)
    requires n < |ps| && ShapeOf(ps[n]) == ShapeOf(p)
    ensures Total(ps[n := p]) == Total(ps)
  {
    if n == 0 {
      assert ps[n := p][1..] == ps[1..];
    } else {
      assert ps[n := p][1..] == ps[1..][n - 1 := p];
      TotalSame(ps[1..], n - 1, p);
    }
  }

  /**
   Every operation acts on the log: what is put is appended, what is taken is the next piece of
   the log, and what is looked at or replaced lies so many pieces ahead.
   */
  lemma LogStep(size: nat, l: Log, q: Queue, op: Op)
    requires Logged(size, l, q) && Legal(q, op)
    ensures Logged(size, Extend(l, op, q), Do(q, op).0)
    ensures Logs(size, l, op, Extend(l, op, q), Do(q, op).1)
  {
    match op
    case Put(p) =>
      if Fitting(p, q.room).Some? {
        TotalSnoc(l.pieces, Fitting(p, q.room).value);
        assert (l.pieces + [Fitting(p, q.room).value])[l.taken..] == l.pieces[l.taken..] + [Fitting(p, q.room).value];
        assert Code(p)[..|Code(p)|] == Code(p);
      }
    case Take(sh) =>
    case Replace(n, v) =>
      if n < |q.pending| {
        assert q.pending[n] == l.pieces[l.taken + n];
        TotalSame(l.pieces, l.taken + n, Single(v));
      }
    case Look(n, k) =>
  }

  /** A run has a log: one state of it before every operation, and one at the end. */
  ghost predicate IsLog(size: nat, ops: seq<Op>, results: seq<Result>, logs: seq<Log>)
  {
    && |results| == |ops| && |logs| == |ops| + 1 && logs[0] == Log([], 0)
    && forall k :: 0 <= k < |ops| ==> Logs(size, logs[k], ops[k], logs[k + 1], results[k])
  }

  lemma {:induction false} LogFrom(size: nat, l: Log, q: Queue, ops: seq<Op>) returns (logs: seq<Log>)
    requires Logged(size, l, q) && LegalRun(q, ops)
    ensures |Results(q, ops)| == |ops| && |logs| == |ops| + 1 && logs[0] == l
    ensures forall k :: 0 <= k < |ops| ==> Logs(size, logs[k], ops[k], logs[k + 1], Results(q, ops)[k])
    decreases |ops|
  {
    if ops == [] {
      logs := [l];
    } else {
      LogStep(size, l, q, ops[0]);
      var more := LogFrom(size, Extend(l, ops[0], q), Do(q, ops[0]).0, ops[1..]);
      logs := [l] + more;
      forall k | 0 <= k < |ops| ensures Logs(size, logs[k], ops[k], logs[k + 1], Results(q, ops)[k]) {
        if k > 0 {
          assert Logs(size, more[k - 1], ops[1..][k - 1], more[k], Results(Do(q, ops[0]).0, ops[1..])[k - 1]);
        }
      }
    }
  }

  /** The results of every run are those of a log. */
  lemma RunHasLog(size: nat, ops: seq<Op>) returns (logs: seq<Log>)
    requires LegalRun(Queue([], size), ops)
    ensures IsLog(size, ops, Results(Queue([], size), ops), logs)
  {
    logs := LogFrom(size, Log([], 0), Queue([], size), ops);
  }

  // ----- strings of bytes one after the other -----

  function Concat(ps: seq<seq<bv8>>): seq<bv8>
  {
    if ps == [] then [] else ps[0] + Concat(ps[1..])
  }

  lemma {:induction false} ConcatAppend(ps: seq<seq<bv8>>, qs: seq<seq<bv8>>)
    ensures Concat(ps + qs) == Concat(ps) + Concat(qs)
  {
    if ps == [] {
      assert ps + qs == qs;
    } else {
      assert (ps + qs)[1..] == ps[1..] + qs;
      ConcatAppend(ps[1..], qs);
    }
  }

  lemma ConcatLast(ps: seq<seq<bv8>>, p: seq<bv8>)
    ensures Concat(ps + [p]) == Concat(ps) + p
  {
    ConcatAppend(ps, [p]);
    assert [p][1..] == [];
  }

  /** The whole around the `n`th part. */
  lemma ConcatAround(ps: seq<seq<bv8>>, n: nat)
    requires n < |ps|
    ensures Concat(ps) == Concat(ps[..n]) + (ps[n] + Concat(ps[n + 1..]))
  {
    assert ps == ps[..n] + ps[n..] && ps[n..][1..] == ps[n + 1..];
    ConcatAppend(ps[..n], ps[n..]);
  }

  /** The `n`th part of what follows the first `getp` bytes. */
  lemma PartAt(s: seq<bv8>, getp: nat, ps: seq<seq<bv8>>, n: nat)
    requires getp <= |s| && s[getp..] == Concat(ps) && n < |ps|
    ensures var from := getp + |Concat(ps[..n])|; from + |ps[n]| <= |s| && s[from..from + |ps[n]|] == ps[n]
  {
    ConcatAround(ps, n);
    MiddleOfTail(s, getp, Concat(ps[..n]), ps[n], Concat(ps[n + 1..]));
  }

  lemma MiddleOfTail(s: seq<bv8>, from: nat, a: seq<bv8>, e: seq<bv8>, b: seq<bv8>)
    requires from <= |s| && s[from..] == a + (e + b)
    ensures from + |a| + |e| <= |s| && s[from + |a|..from + |a| + |e|] == e
  {
    MiddleSlice(a, e, b);
    assert s[from + |a|..from + |a| + |e|] == s[from..][|a|..|a| + |e|];
  }

  lemma MiddleSlice(a: seq<bv8>, e: seq<bv8>, b: seq<bv8>)
    ensures (a + (e + b))[|a|..|a| + |e|] == e
  {
  }

  /** The `n`th part overwritten by one as long. */
  lemma PartReplaced(s: seq<bv8>, getp: nat, ps: seq<seq<bv8>>, n: nat, p: seq<bv8>)
    requires getp <= |s| && s[getp..] == Concat(ps) && n < |ps| && |p| == |ps[n]|
    ensures getp + |Concat(ps[..n])| + |p| <= |s|
    ensures Splice(s, getp + |Concat(ps[..n])|, p)[getp..] == Concat(ps[n := p])
  {
    ConcatAround(ps, n);
    ConcatAround(ps[n := p], n);
    assert ps[n := p][..n] == ps[..n] && ps[n := p][n + 1..] == ps[n + 1..];
    SpliceMiddle(Concat(ps[..n]), ps[n], Concat(ps[n + 1..]), p);
    SpliceLater(s, getp, |Concat(ps[..n])|, p);
  }

  lemma SpliceMiddle(a: seq<bv8>, e: seq<bv8>, b: seq<bv8>, f: seq<bv8>)
    requires |e| == |f|
    ensures Splice(a + (e + b), |a|, f) == a + (f + b)
  {
  }

  lemma SpliceLater(s: seq<bv8>, from: nat, at: nat, part: seq<bv8>)
    requires from + at + |part| <= |s|
    ensures Splice(s, from + at, part)[from..] == Splice(s[from..], at, part)
  {
  }

  lemma TailGrows(s: seq<bv8>, from: nat, t: seq<bv8>)
    requires from <= |s|
    ensures (s + t)[from..] == s[from..] + t
  {
  }

  // ----- pieces as bytes -----

  function Codes(ps: seq<Piece>): (cs: seq<seq<bv8>>)
    ensures |cs| == |ps| && forall i :: 0 <= i < |ps| ==> cs[i] == Code(ps[i])
  {
    seq(|ps|, i requires 0 <= i < |ps| => Code(ps[i]))
  }

  lemma CodesOf(ps: seq<Piece>, n: nat, p: Piece)
    requires n <= |ps|
    ensures Codes(ps[..n]) == Codes(ps)[..n] && Codes(ps[n..]) == Codes(ps)[n..]
    ensures Codes(ps + [p]) == Codes(ps) + [Code(p)]
    ensures n < |ps| ==> Codes(ps[n := p]) == Codes(ps)[n := Code(p)]
  {
  }

  function EncodeAll(ps: seq<Piece>): seq<bv8>
  {
    Concat(Codes(ps))
  }

  function Offset(ps: seq<Piece>, n: nat): nat
    requires n <= |ps|
  {
    |Concat(Codes(ps)[..n])|
  }

  lemma {:induction false} TotalIsLength(ps: seq<Piece>)
    ensures Total(ps) == |EncodeAll(ps)|
  {
    if ps != [] {
      TotalIsLength(ps[1..]);
      assert Codes(ps)[1..] == Codes(ps[1..]);
    }
  }

  lemma OffsetOfEnd(ps: seq<Piece>)
    ensures Offset(ps, |ps|) == Total(ps)
  {
    TotalIsLength(ps);
    assert Codes(ps)[..|ps|] == Codes(ps);
  }

  lemma PutAmongWritten(written: seq<bv8>, getp: nat, ps: seq<Piece>, p: Piece)
    requires getp <= |written| && written[getp..] == EncodeAll(ps)
    ensures (written + Code(p))[getp..] == EncodeAll(ps + [p])
  {
    CodesOf(ps, 0, p);
    ConcatLast(Codes(ps), Code(p));
    TailGrows(written, getp, Code(p));
  }

  lemma TakeFromWritten(written: seq<bv8>, getp: nat, ps: seq<Piece>)
    requires getp <= |written| && written[getp..] == EncodeAll(ps) && ps != []
    ensures var w := |Code(ps[0])|;
      getp + w <= |written| && written[getp..getp + w] == Code(ps[0]) && written[getp + w..] == EncodeAll(ps[1..])
  {
    CodesOf(ps, 1, ps[0]);
    HeadAndTail(written, getp, Code(ps[0]), EncodeAll(ps[1..]));
  }

  lemma ReplaceInWritten(written: seq<bv8>, getp: nat, ps: seq<Piece>, n: nat, v: Item)
    requires getp <= |written| && written[getp..] == EncodeAll(ps)
    requires n < |ps| && ShapeOf(ps[n]) == Of(KindOf(v))
    ensures getp + Offset(ps, n) + |Encode(v)| <= |written|
    ensures Splice(written, getp + Offset(ps, n), Encode(v))[getp..] == EncodeAll(ps[n := Single(v)])
  {
    CodesOf(ps, n, Single(v));
    PartReplaced(written, getp, Codes(ps), n, Encode(v));
  }

  lemma HeadAndTail(s: seq<bv8>, from: nat, p: seq<bv8>, q: seq<bv8>)
    requires from <= |s| && s[from..] == p + q
    ensures from + |p| <= |s| && s[from..from + |p|] == p && s[from + |p|..] == q
  {
    assert s[from..from + |p|] == s[from..][..|p|] && s[from + |p|..] == s[from..][|p|..];
  }

  lemma DecodesTo(k: Kind, s: seq<bv8>, p: Piece)
    requires ShapeOf(p) == Of(k) && s == Code(p)
    ensures |s| == Width(k) && Single(Decode(k, s)) == p
  {
    DecodeEncode(p.v);
  }

  function Shapes(ps: seq<Piece>): (shs: seq<Shape>)
    ensures |shs| == |ps| && forall i :: 0 <= i < |ps| ==> shs[i] == ShapeOf(ps[i])
  {
    seq(|ps|, i requires 0 <= i < |ps| => ShapeOf(ps[i]))
  }

  /** How many bytes pieces of these shapes take. */
  function Span(shs: seq<Shape>): nat
  {
    if shs == [] then 0 else Size(shs[0]) + Span(shs[1..])
  }

  lemma {:induction false} SpanIsLength(shs: seq<Shape>, cs: seq<seq<bv8>>)
    requires |shs| == |cs| && forall i :: 0 <= i < |shs| ==> |cs[i]| == Size(shs[i])
    ensures Span(shs) == |Concat(cs)|
  {
    if shs != [] {
      SpanIsLength(shs[1..], cs[1..]);
    }
  }

  // ----- the stream by kind of value -----

  method PutItem(s: Stream.Stream, v: Item) returns (n: nat)
    requires s.Valid()
    modifies s`endp, s.data
    ensures s.Valid() && n == (if old(s.endp) + Width(KindOf(v)) <= s.size then Width(KindOf(v)) else 0)
    ensures s.Written() == old(s.Written()) + if n == 0 then [] else Encode(v)
  {
    match v {
      case C(c) => n := s.PutC(c);
      case W(w) => n := s.PutW(w);
      case L(l) => n := s.PutL(l);
      case Q(q) => n := s.PutQ(q);
    }
  }

  method GetItem(s: Stream.Stream, k: Kind) returns (v: Item)
    requires s.Valid()
    modifies s`getp
    ensures s.Valid() && s.getp == if old(s.getp) + Width(k) <= s.endp then old(s.getp) + Width(k) else old(s.getp)
    ensures v == if s.getp == old(s.getp) then Zero(k) else Decode(k, s.Written()[old(s.getp)..s.getp])
  {
    match k {
      case Char => var c := s.GetC(); v := C(c);
      case Word => var w := s.GetW(); v := W(w);
      case Long => var l := s.GetL(); v := L(l);
      case Quad => var q := s.GetQ(); v := Q(q);
    }
  }

  method PutItemAt(s: Stream.Stream, at: nat, v: Item) returns (n: nat)
    requires s.Valid()
    modifies s.data
    ensures n == if at + Width(KindOf(v)) <= s.endp then Width(KindOf(v)) else 0
    ensures s.Written() == if n == 0 then old(s.Written()) else Splice(old(s.Written()), at, Encode(v))
  {
    match v {
      case C(c) => n := s.PutCAt(at, c);
      case W(w) => n := s.PutWAt(at, w);
      case L(l) => n := s.PutLAt(at, l);
      case Q(q) => n := s.PutQAt(at, q);
    }
  }

  method GetItemFrom(s: Stream.Stream, from: nat, k: Kind) returns (v: Item)
    requires s.Valid()
    ensures v == if from + Width(k) <= s.endp then Decode(k, s.Written()[from..from + Width(k)]) else Zero(k)
  {
    match k {
      case Char => var c := s.GetCFrom(from); v := C(c);
      case Word => var w := s.GetWFrom(from); v := W(w);
      case Long => var l := s.GetLFrom(from); v := L(l);
      case Quad => var q := s.GetQFrom(from); v := Q(q);
    }
  }

  // ----- the queue in the stream -----

  /** What is still to be read is the code of what is waiting. */
  ghost predicate Holds(s: Stream.Stream, q: Queue)
    reads s, s.data
  {
    s.Valid() && s.Written()[s.getp..] == EncodeAll(q.pending) && q.room == s.size - s.endp
  }

  /** The bytes still to be read are as many as are waiting. */
  lemma Remaining(s: Stream.Stream, q: Queue)
    requires Holds(s, q)
    ensures s.endp - s.getp == Total(q.pending) == Offset(q.pending, |q.pending|)
  {
    TotalIsLength(q.pending);
    OffsetOfEnd(q.pending);
  }

  method PutSingle(s: Stream.Stream, v: Item, ghost q: Queue) returns (r: Result)
    requires Holds(s, q)
    modifies s`endp, s.data
    ensures Holds(s, Do(q, Put(Single(v))).0) && r == Do(q, Put(Single(v))).1
  {
    PutAmongWritten(s.Written(), s.getp, q.pending, Single(v));
    var n := PutItem(s, v);
    r := Accepted(n);
  }

  method PutBlock(s: Stream.Stream, bytes: seq<bv8>, ghost q: Queue) returns (r: Result)
    requires Holds(s, q)
    modifies s`endp, s.data
    ensures Holds(s, Do(q, Put(Block(bytes))).0) && r == Do(q, Put(Block(bytes))).1
  {
    PutAmongWritten(s.Written(), s.getp, q.pending, Block(bytes[..Stream.Min(|bytes|, q.room)]));
    var was := s.endp;
    s.Put(Some(bytes), |bytes|);
    r := Accepted(s.endp - was);
  }

  method TakeSingle(s: Stream.Stream, k: Kind, ghost q: Queue) returns (r: Result)
    requires Holds(s, q) && Legal(q, Take(Of(k)))
    modifies s`getp
    ensures Holds(s, Do(q, Take(Of(k))).0) && r == Do(q, Take(Of(k))).1
  {
    Remaining(s, q);
    if IsThere(q, 0, Of(k)) {
      TakeFromWritten(s.Written(), s.getp, q.pending);
      DecodesTo(k, s.Written()[s.getp..s.getp + Width(k)], q.pending[0]);
    }
    var v := GetItem(s, k);
    r := Got(Single(v));
  }

  method TakeBlock(s: Stream.Stream, n: nat, ghost q: Queue) returns (r: Result)
    requires Holds(s, q) && Legal(q, Take(Bytes(n)))
    modifies s`getp
    ensures Holds(s, Do(q, Take(Bytes(n))).0) && r == Do(q, Take(Bytes(n))).1
  {
    Remaining(s, q);
    if IsThere(q, 0, Bytes(n)) {
      TakeFromWritten(s.Written(), s.getp, q.pending);
    }
    var bytes := s.Get(n);
    r := if bytes.Some? then Got(Block(bytes.value)) else Nothing;
  }

  method DoReplace(s: Stream.Stream, n: nat, offset: nat, v: Item, ghost q: Queue) returns (r: Result)
    requires Holds(s, q) && Legal(q, Replace(n, v)) && n <= |q.pending| && offset == Offset(q.pending, n)
    modifies s.data
    ensures Holds(s, Do(q, Replace(n, v)).0) && r == Do(q, Replace(n, v)).1
  {
    if n < |q.pending| {
      ReplaceInWritten(s.Written(), s.getp, q.pending, n, v);
    } else {
      Remaining(s, q);
    }
    var done := PutItemAt(s, s.getp + offset, v);
    r := Accepted(done);
  }

  method DoLook(s: Stream.Stream, n: nat, offset: nat, k: Kind, ghost q: Queue) returns (r: Result)
    requires Holds(s, q) && Legal(q, Look(n, k)) && n <= |q.pending| && offset == Offset(q.pending, n)
    ensures r == Do(q, Look(n, k)).1
  {
    var from := s.getp + offset;
    if n < |q.pending| {
      PartAt(s.Written(), s.getp, Codes(q.pending), n);
      DecodesTo(k, s.Written()[from..from + Width(k)], q.pending[n]);
    } else {
      Remaining(s, q);
    }
    var v := GetItemFrom(s, from, k);
    r := Got(Single(v));
  }

  /** The shapes of what is waiting after an operation, as the user can tell from its result. */
  function NextShapes(shapes: seq<Shape>, op: Op, r: Result): seq<Shape>
  {
    match op
    case Put(Single(v)) => if r == Accepted(0) then shapes else shapes + [Of(KindOf(v))]
    case Put(Block(_)) => if r.Accepted? then shapes + [Bytes(r.n)] else shapes
    case Take(sh) => if shapes != [] && shapes[0] == sh then shapes[1..] else shapes
    case Replace(_, _) => shapes
    case Look(_, _) => shapes
  }

  lemma ShapesKept(q: Queue, op: Op)
    requires Legal(q, op)
    ensures NextShapes(Shapes(q.pending), op, Do(q, op).1) == Shapes(Do(q, op).0.pending)
  {
  }

  /** A user who remembers the shapes of what is waiting. */
  method Perform(s: Stream.Stream, op: Op, shapes: seq<Shape>, ghost q: Queue) returns (r: Result)
    requires Holds(s, q) && Legal(q, op) && shapes == Shapes(q.pending)
    modifies s, s.data
    ensures Holds(s, Do(q, op).0) && r == Do(q, op).1 && s.data == old(s.data) && s.size == old(s.size)
  {
    match op {
      case Put(Single(v)) => r := PutSingle(s, v, q);
      case Put(Block(bytes)) => r := PutBlock(s, bytes, q);
      case Take(Of(k)) => r := TakeSingle(s, k, q);
      case Take(Bytes(n)) => r := TakeBlock(s, n, q);
      case Replace(n, v) =>
        SpanIsLength(shapes[..n], Codes(q.pending)[..n]);
        r := DoReplace(s, n, Span(shapes[..n]), v, q);
      case Look(n, k) =>
        SpanIsLength(shapes[..n], Codes(q.pending)[..n]);
        r := DoLook(s, n, Span(shapes[..n]), k, q);
    }
  }

  lemma OneMore(done: seq<Result>, q: Queue, left: seq<Op>)
    requires LegalRun(q, left) && left != []
    ensures done + Results(q, left) == (done + [Do(q, left[0]).1]) + Results(Do(q, left[0]).0, left[1..])
  {
  }

  /** What is put into a stream of any size comes out unchanged and in order, whatever is done in between. */
  method RunStream(size: nat, ops: seq<Op>) returns (done: seq<Result>)
    requires size > 0 && LegalRun(Queue([], size), ops)
    ensures done == Results(Queue([], size), ops)
  {
    var s := new Stream.Stream(size);
    ghost var q := Queue([], size);
    ghost var all := Results(q, ops);
    var shapes: seq<Shape>, left := [], ops;
    done := [];
    assert done + Results(q, left) == all;
    while left != []
      invariant fresh(s) && fresh(s.data) && Holds(s, q) && shapes == Shapes(q.pending)
      invariant LegalRun(q, left) && done + Results(q, left) == all
      decreases |left|
    {
      OneMore(done, q, left);
      ShapesKept(q, left[0]);
      var r := Perform(s, left[0], shapes, q);
      shapes := NextShapes(shapes, left[0], r);
      q := Do(q, left[0]).0;
      done, left := done + [r], left[1..];
    }
    assert done + [] == done;
  }
}
