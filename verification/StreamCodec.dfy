/**
 The big-endian codec of misaka/lib/stream.c on bytes: shifts and masks as the code has them.
 */
module StreamCodec {

  /** A value of one, two, four or eight bytes. */
  datatype Item = C(c: bv8) | W(w: bv16) | L(l: bv32) | Q(q: bv64)

  datatype Kind = Char | Word | Long | Quad

  function KindOf(v: Item): Kind
  {
    match v
    case C(_) => Char
    case W(_) => Word
    case L(_) => Long
    case Q(_) => Quad
  }

  function Width(k: Kind): nat
  {
    match k
    case Char => 1
    case Word => 2
    case Long => 4
    case Quad => 8
  }

  /** The `(u_char)` casts of `stream_putw`, `stream_putl` and `stream_putq`. */
  function WordBytes(w: bv16): seq<bv8>
  {
    [((w >> 8) & 0xff) as bv8, (w & 0xff) as bv8]
  }

  function LongBytes(l: bv32): seq<bv8>
  {
    [((l >> 24) & 0xff) as bv8, ((l >> 16) & 0xff) as bv8, ((l >> 8) & 0xff) as bv8, (l & 0xff) as bv8]
  }

  function QuadBytes(q: bv64): seq<bv8>
  {
    [((q >> 56) & 0xff) as bv8, ((q >> 48) & 0xff) as bv8, ((q >> 40) & 0xff) as bv8, ((q >> 32) & 0xff) as bv8,
     ((q >> 24) & 0xff) as bv8, ((q >> 16) & 0xff) as bv8, ((q >> 8) & 0xff) as bv8, (q & 0xff) as bv8]
  }

  /** The shifts of `stream_getw`, `stream_getl` and `stream_getq`. */
  function ToWord(b0: bv8, b1: bv8): bv16
  {
    ((b0 as bv16) << 8) | (b1 as bv16)
  }

  function ToLong(b0: bv8, b1: bv8, b2: bv8, b3: bv8): bv32
  {
    ((b0 as bv32) << 24) | ((b1 as bv32) << 16) | ((b2 as bv32) << 8) | (b3 as bv32)
  }

  function ToQuad(b0: bv8, b1: bv8, b2: bv8, b3: bv8, b4: bv8, b5: bv8, b6: bv8, b7: bv8): bv64
  {
    ((b0 as bv64) << 56) | ((b1 as bv64) << 48) | ((b2 as bv64) << 40) | ((b3 as bv64) << 32)
    | ((b4 as bv64) << 24) | ((b5 as bv64) << 16) | ((b6 as bv64) << 8) | (b7 as bv64)
  }

  function Encode(v: Item): (s: seq<bv8>)
    ensures |s| == Width(KindOf(v))
  {
    match v
    case C(c) => [c]
    case W(w) => WordBytes(w)
    case L(l) => LongBytes(l)
    case Q(q) => QuadBytes(q)
  }

  function Decode(k: Kind, s: seq<bv8>): (v: Item)
    requires |s| == Width(k)
    ensures KindOf(v) == k
  {
    match k
    case Char => C(s[0])
    case Word => W(ToWord(s[0], s[1]))
    case Long => L(ToLong(s[0], s[1], s[2], s[3]))
    case Quad => Q(ToQuad(s[0], s[1], s[2], s[3], s[4], s[5], s[6], s[7]))
  }

  /** Decoding undoes encoding. */
  lemma DecodeEncode(v: Item)
    ensures Decode(KindOf(v), Encode(v)) == v
  {
  }

  /** Encoding undoes decoding: every string of bytes of the right length is the code of one value. */
  lemma EncodeDecode(k: Kind, s: seq<bv8>)
    requires |s| == Width(k)
    ensures Encode(Decode(k, s)) == s
  {
  }

  // ----- what the bytes mean -----

  /** The number that bytes spell, the first of them the most significant. */
  function Number(s: seq<bv8>): nat
  {
    if s == [] then 0 else Number(s[..|s| - 1]) * 256 + s[|s| - 1] as int
  }

  /** The number that a value is. */
  function Meaning(v: Item): nat
  {
    match v
    case C(c) => c as int
    case W(w) => w as int
    case L(l) => l as int
    case Q(q) => q as int
  }

  /** Shifted bytes joined by `|` add up. */
  lemma JoinTwo(b0: bv8, b1: bv8)
    ensures (((b0 as bv16) << 8) | (b1 as bv16)) as int == b0 as int * 0x100 + b1 as int
  {
  }

  lemma JoinFour(b0: bv8, b1: bv8, b2: bv8, b3: bv8)
    ensures (((b0 as bv32) << 24) | ((b1 as bv32) << 16) | ((b2 as bv32) << 8) | (b3 as bv32)) as int ==
      ((b0 as int * 0x100 + b1 as int) * 0x100 + b2 as int) * 0x100 + b3 as int
  {
  }

  lemma JoinEight(b0: bv8, b1: bv8, b2: bv8, b3: bv8, b4: bv8, b5: bv8, b6: bv8, b7: bv8)
    ensures (((b0 as bv64) << 56) | ((b1 as bv64) << 48) | ((b2 as bv64) << 40) | ((b3 as bv64) << 32)
             | ((b4 as bv64) << 24) | ((b5 as bv64) << 16) | ((b6 as bv64) << 8) | (b7 as bv64)) as int ==
      ((((((b0 as int * 0x100 + b1 as int) * 0x100 + b2 as int) * 0x100 + b3 as int) * 0x100 + b4 as int) * 0x100
        + b5 as int) * 0x100 + b6 as int) * 0x100 + b7 as int
  {
  }

  lemma NumberOfFour(s: seq<bv8>)
    requires |s| >= 4
    ensures Number(s[..4]) == ((s[0] as int * 0x100 + s[1] as int) * 0x100 + s[2] as int) * 0x100 + s[3] as int
  {
    assert s[..4][..3] == s[..3] && s[..3][..2] == s[..2] && s[..2][..1] == s[..1] && s[..1][..0] == [];
    assert Number(s[..1]) == s[0] as int;
    assert Number(s[..2]) == Number(s[..1]) * 0x100 + s[1] as int;
    assert Number(s[..3]) == Number(s[..2]) * 0x100 + s[2] as int;
  }

  lemma NumberOfEight(s: seq<bv8>)
    requires |s| == 8
    ensures Number(s) ==
      (((Number(s[..4]) * 0x100 + s[4] as int) * 0x100 + s[5] as int) * 0x100 + s[6] as int) * 0x100 + s[7] as int
  {
    assert s[..7][..6] == s[..6] && s[..6][..5] == s[..5] && s[..5][..4] == s[..4];
    assert Number(s[..5]) == Number(s[..4]) * 0x100 + s[4] as int;
    assert Number(s[..6]) == Number(s[..5]) * 0x100 + s[5] as int;
    assert Number(s[..7]) == Number(s[..6]) * 0x100 + s[6] as int;
  }

  lemma WordNumber(s: seq<bv8>)
    requires |s| == 2
    ensures ToWord(s[0], s[1]) as int == Number(s)
  {
    JoinTwo(s[0], s[1]);
    assert s[..1][..0] == [];
    assert Number(s[..1]) == s[0] as int;
  }

  lemma LongNumber(s: seq<bv8>, b0: bv8, b1: bv8, b2: bv8, b3: bv8)
    requires s == [b0, b1, b2, b3]
    ensures ToLong(b0, b1, b2, b3) as int == Number(s)
  {
    JoinFour(b0, b1, b2, b3);
    NumberOfFour(s);
    assert s[..4] == s;
  }

  lemma QuadNumber(s: seq<bv8>, b0: bv8, b1: bv8, b2: bv8, b3: bv8, b4: bv8, b5: bv8, b6: bv8, b7: bv8)
    requires s == [b0, b1, b2, b3, b4, b5, b6, b7]
    ensures ToQuad(b0, b1, b2, b3, b4, b5, b6, b7) as int == Number(s)
  {
    JoinEight(b0, b1, b2, b3, b4, b5, b6, b7);
    NumberOfFour(s);
    NumberOfEight(s);
  }

  /** Bytes are read as the number they spell, most significant byte first. */
  lemma DecodeIsBigEndian(k: Kind, s: seq<bv8>)
    requires |s| == Width(k)
    ensures Meaning(Decode(k, s)) == Number(s)
  {
    match k
    case Char => assert s[..0] == [];
    case Word => WordNumber(s);
    case Long => LongNumber(s, s[0], s[1], s[2], s[3]);
    case Quad => QuadNumber(s, s[0], s[1], s[2], s[3], s[4], s[5], s[6], s[7]);
  }

  /** A value is written as the bytes that spell it, most significant byte first. */
  lemma EncodeIsBigEndian(v: Item)
    ensures Number(Encode(v)) == Meaning(v)
  {
    DecodeEncode(v);
    DecodeIsBigEndian(KindOf(v), Encode(v));
  }

  /** Bytes written over a part of others. */
  function Splice(s: seq<bv8>, at: nat, part: seq<bv8>): (r: seq<bv8>)
    requires at + |part| <= |s|
    ensures |r| == |s|
  {
    s[..at] + part + s[at + |part|..]
  }

  /** What was put at a place is read from there, and what lies clear of it is as before. */
  lemma SpliceReads(s: seq<bv8>, at: nat, part: seq<bv8>, from: nat, n: nat)
    requires at + |part| <= |s| && from + n <= |s|
    ensures Splice(s, at, part)[at..at + |part|] == part
    ensures from + n <= at || at + |part| <= from ==> Splice(s, at, part)[from..from + n] == s[from..from + n]
  {
  }
}
