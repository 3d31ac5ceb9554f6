/** The blob layout of the "Blob Encoding" section of the OP Stack Ecotone derivation specification,
    as a closed form, its decoder, and the proof that the two are inverse to each other. */
module BlobLayout {
  import opened GatewayTypes

  type byte = bv8

  const MAX_BLOB_DATA_SIZE: nat := (4 * 31 + 3) * 1024 - 4
  const ROUNDS: nat := 1024
  const ENCODING_VERSION: byte := 0
  const BYTES_PER_BLOB: nat := 4096 * 32
  /** Bytes of input one round consumes, and bytes of blob it fills. */
  const ROUND_IN: nat := 127
  const ROUND_OUT: nat := 128
  /** All the payload a blob carries: four header bytes and the data. */
  const STREAM_SIZE: nat := ROUND_IN * ROUNDS

  // ---- 6-bit fields ----

  function Top0(x: byte): byte { x & 0x3F }
  function Top1(x: byte, y: byte): byte { (y & 0x0F) | ((x & 0xC0) >> 2) }
  function Top2(z: byte): byte { z & 0x3F }
  function Top3(y: byte, z: byte): byte { ((z & 0xC0) >> 2) | ((y & 0xF0) >> 4) }

  function JoinX(a: byte, b: byte): byte { a | ((b & 0x30) << 2) }
  function JoinY(b: byte, d: byte): byte { (b & 0x0F) | ((d & 0x0F) << 4) }
  function JoinZ(c: byte, d: byte): byte { c | ((d & 0x30) << 2) }

  predicate IsSixBit(v: byte) { v & 0xC0 == 0 }

  /** Three bytes and four 6-bit fields determine each other. */
  lemma SplitJoin(x: byte, y: byte, z: byte)
    ensures IsSixBit(Top0(x)) && IsSixBit(Top1(x, y)) && IsSixBit(Top2(z)) && IsSixBit(Top3(y, z))
    ensures JoinX(Top0(x), Top1(x, y)) == x && JoinY(Top1(x, y), Top3(y, z)) == y && JoinZ(Top2(z), Top3(y, z)) == z
  {
  }

  lemma JoinSplit(a: byte, b: byte, c: byte, d: byte)
    requires IsSixBit(a) && IsSixBit(b) && IsSixBit(c) && IsSixBit(d)
    ensures
      var x, y, z := JoinX(a, b), JoinY(b, d), JoinZ(c, d);
      Top0(x) == a && Top1(x, y) == b && Top2(z) == c && Top3(y, z) == d
  {
  }

  // ---- the length field ----

  function Value(b: byte): (n: nat)
    ensures n < 0x100
  {
    b as nat
  }

  lemma NextValue(b: byte)
    requires b != 255
    ensures Value(b + 1) == Value(b) + 1
  {
  }

  lemma EndValues()
    ensures Value(0) == 0 && Value(255) == 255
  {
  }

  /** The byte of value `k`, counted up from zero: integer conversions into bit-vectors are costly to
      reason about. */
  function ByteOf(k: nat): (b: byte)
    requires k < 0x100
    ensures Value(b) == k
  {
    hide Value;
    EndValues();
    if k == 0 then 0
    else
      var b := ByteOf(k - 1);
      NextValue(b);
      b + 1
  }

  lemma SameValue(a: byte, b: byte)
    requires Value(a) == Value(b)
    ensures a == b
  {
    assert Value(a) as byte == a && Value(b) as byte == b;
  }

  /** Version, then the length as big-endian uint24. */
  function Header(len: nat): seq<byte>
    requires len <= MAX_BLOB_DATA_SIZE
  {
    [ENCODING_VERSION, ByteOf(len / 0x10000), ByteOf(len / 0x100 % 0x100), ByteOf(len % 0x100)]
  }

  function HeaderLength(b1: byte, b2: byte, b3: byte): nat {
    Value(b1) * 0x10000 + Value(b2) * 0x100 + Value(b3)
  }

  lemma HeaderRoundTrip(len: nat)
    requires len <= MAX_BLOB_DATA_SIZE
    ensures HeaderLength(Header(len)[1], Header(len)[2], Header(len)[3]) == len
  {
    hide Value, ByteOf;
  }

  lemma Digits(n1: nat, n2: nat, n3: nat)
    requires n1 < 0x100 && n2 < 0x100 && n3 < 0x100
    ensures var len := n1 * 0x10000 + n2 * 0x100 + n3;
            len / 0x10000 == n1 && len / 0x100 % 0x100 == n2 && len % 0x100 == n3
  {
    var len := n1 * 0x10000 + n2 * 0x100 + n3;
    assert len / 0x100 == n1 * 0x100 + n2;
  }

  lemma HeaderUnique(b1: byte, b2: byte, b3: byte)
    requires HeaderLength(b1, b2, b3) <= MAX_BLOB_DATA_SIZE
    ensures Header(HeaderLength(b1, b2, b3)) == [ENCODING_VERSION, b1, b2, b3]
  {
    hide Value, ByteOf;
    Digits(Value(b1), Value(b2), Value(b3));
    SameValue(ByteOf(Value(b1)), b1);
    SameValue(ByteOf(Value(b2)), b2);
    SameValue(ByteOf(Value(b3)), b3);
  }

  lemma ZeroHeader()
    ensures Header(0) == [0, 0, 0, 0]
  {
    EndValues();
    SameValue(ByteOf(0), 0);
  }

  // ---- the layout ----

  /** Byte `n` of the payload stream: the header, the data, then zeros. */
  function StreamByte(data: seq<byte>, n: nat): byte
    requires |data| <= MAX_BLOB_DATA_SIZE
  {
    if data == [] then 0
    else if n < 4 then Header(|data|)[n]
    else if n - 4 < |data| then data[n - 4]
    else 0
  }

  /** Byte `p` of round `r` of the blob that carries stream `s`: four 31-byte runs, each after a byte
      holding 6 bits of the three bytes that the runs leave out. */
  function RoundByte(s: nat -> byte, r: nat, p: nat): byte {
    var base := r * ROUND_IN;
    if p == 0 then Top0(s(base + 31))
    else if p == 32 then Top1(s(base + 31), s(base + 63))
    else if p == 64 then Top2(s(base + 95))
    else if p == 96 then Top3(s(base + 63), s(base + 95))
    else s(base + p - 1)
  }

  function LayoutByte(s: nat -> byte, i: nat): byte {
    RoundByte(s, i / ROUND_OUT, i % ROUND_OUT)
  }

  ghost function Layout(data: seq<byte>): (blob: seq<byte>)
    requires |data| <= MAX_BLOB_DATA_SIZE
    ensures |blob| == BYTES_PER_BLOB
  {
    seq(BYTES_PER_BLOB, i requires 0 <= i < BYTES_PER_BLOB => LayoutByte(Stream(data), i))
  }

  ghost function Stream(data: seq<byte>): nat -> byte
    requires |data| <= MAX_BLOB_DATA_SIZE
  {
    (n: nat) => StreamByte(data, n)
  }

  // ---- the decoder ----

  /** Byte `m` of the 127 stream bytes that round `r` of a blob carries. */
  function RoundGather(blob: seq<byte>, r: nat, m: nat): byte
    requires |blob| == BYTES_PER_BLOB && r < ROUNDS && m < ROUND_IN
  {
    var base := r * ROUND_OUT;
    if m == 31 then JoinX(blob[base], blob[base + 32])
    else if m == 63 then JoinY(blob[base + 32], blob[base + 96])
    else if m == 95 then JoinZ(blob[base + 64], blob[base + 96])
    else blob[base + m + 1]
  }

  function Gather(blob: seq<byte>, n: nat): byte
    requires |blob| == BYTES_PER_BLOB && n < STREAM_SIZE
  {
    RoundGather(blob, n / ROUND_IN, n % ROUND_IN)
  }

  /** Rejects a field element with its top bits set, an unknown version, a length too large and any
      nonzero byte after the data. */
  ghost function Decode(blob: seq<byte>): Option<seq<byte>>
    requires |blob| == BYTES_PER_BLOB
  {
    var len := HeaderLength(Gather(blob, 1), Gather(blob, 2), Gather(blob, 3));
    if exists w: nat :: w < 4096 && !IsSixBit(blob[32 * w]) then None
    else if Gather(blob, 0) != ENCODING_VERSION || len > MAX_BLOB_DATA_SIZE then None
    else if exists n: nat :: 4 + len <= n < STREAM_SIZE && Gather(blob, n) != 0 then None
    else Some(seq(len, i requires 0 <= i < len => Gather(blob, 4 + i)))
  }

  lemma RoundPosition(r: nat, p: nat)
    requires r < ROUNDS && p < ROUND_OUT
    ensures r * ROUND_OUT + p < BYTES_PER_BLOB
    ensures (r * ROUND_OUT + p) / ROUND_OUT == r && (r * ROUND_OUT + p) % ROUND_OUT == p
  {
  }

  lemma StreamPosition(r: nat, m: nat)
    requires r < ROUNDS && m < ROUND_IN
    ensures r * ROUND_IN + m < STREAM_SIZE
    ensures (r * ROUND_IN + m) / ROUND_IN == r && (r * ROUND_IN + m) % ROUND_IN == m
  {
  }

  /** Reading the stream back out of a blob laid out from it, one round. */
  lemma RoundGatherLayout(s: nat -> byte, blob: seq<byte>, r: nat, m: nat)
    requires |blob| == BYTES_PER_BLOB && r < ROUNDS && m < ROUND_IN
    requires forall p: nat | p < ROUND_OUT ::
               r * ROUND_OUT + p < BYTES_PER_BLOB && blob[r * ROUND_OUT + p] == RoundByte(s, r, p)
    ensures RoundGather(blob, r, m) == s(r * ROUND_IN + m)
  {
    var base := r * ROUND_IN;
    SplitJoin(s(base + 31), s(base + 63), s(base + 95));
    assert blob[r * ROUND_OUT + 0] == RoundByte(s, r, 0);
    assert blob[r * ROUND_OUT + 32] == RoundByte(s, r, 32);
    assert blob[r * ROUND_OUT + 64] == RoundByte(s, r, 64);
    assert blob[r * ROUND_OUT + 96] == RoundByte(s, r, 96);
    assert blob[r * ROUND_OUT + (m + 1)] == RoundByte(s, r, m + 1);
  }

  lemma GatherLayout(s: nat -> byte, blob: seq<byte>, n: nat)
    requires |blob| == BYTES_PER_BLOB && n < STREAM_SIZE
    requires forall i | 0 <= i < BYTES_PER_BLOB :: blob[i] == LayoutByte(s, i)
    ensures Gather(blob, n) == s(n)
  {
    var r := n / ROUND_IN;
    forall p: nat | p < ROUND_OUT
      ensures r * ROUND_OUT + p < BYTES_PER_BLOB && blob[r * ROUND_OUT + p] == RoundByte(s, r, p)
    {
      RoundPosition(r, p);
    }
    RoundGatherLayout(s, blob, r, n % ROUND_IN);
  }

  /** Laying out the stream gathered from a blob with clear top bits gives that blob back, one round. */
  lemma RoundLayoutGather(s: nat -> byte, blob: seq<byte>, r: nat, p: nat)
    requires |blob| == BYTES_PER_BLOB && r < ROUNDS && p < ROUND_OUT
    requires var at := r * ROUND_OUT;
             IsSixBit(blob[at]) && IsSixBit(blob[at + 32]) && IsSixBit(blob[at + 64]) && IsSixBit(blob[at + 96])
    requires forall m: nat | m < ROUND_IN :: s(r * ROUND_IN + m) == RoundGather(blob, r, m)
    ensures RoundByte(s, r, p) == blob[r * ROUND_OUT + p]
  {
    var at := r * ROUND_OUT;
    JoinSplit(blob[at], blob[at + 32], blob[at + 64], blob[at + 96]);
    assert s(r * ROUND_IN + 31) == RoundGather(blob, r, 31);
    assert s(r * ROUND_IN + 63) == RoundGather(blob, r, 63);
    assert s(r * ROUND_IN + 95) == RoundGather(blob, r, 95);
    if p > 0 {
      assert s(r * ROUND_IN + (p - 1)) == RoundGather(blob, r, p - 1);
    }
  }

  lemma LayoutGather(s: nat -> byte, blob: seq<byte>, i: nat)
    requires |blob| == BYTES_PER_BLOB && i < BYTES_PER_BLOB
    requires forall w: nat | w < 4096 :: IsSixBit(blob[32 * w])
    requires forall n: nat | n < STREAM_SIZE :: s(n) == Gather(blob, n)
    ensures LayoutByte(s, i) == blob[i]
  {
    var r, p := i / ROUND_OUT, i % ROUND_OUT;
    var at := r * ROUND_OUT;
    assert r < ROUNDS && at + p == i;
    assert at == 32 * (4 * r) && at + 32 == 32 * (4 * r + 1) && at + 64 == 32 * (4 * r + 2) && at + 96 == 32 * (4 * r + 3);
    forall m: nat | m < ROUND_IN
      ensures s(r * ROUND_IN + m) == RoundGather(blob, r, m)
    {
      StreamPosition(r, m);
      assert s(r * ROUND_IN + m) == Gather(blob, r * ROUND_IN + m);
    }
    assert IsSixBit(blob[32 * (4 * r)]) && IsSixBit(blob[32 * (4 * r + 1)]);
    assert IsSixBit(blob[32 * (4 * r + 2)]) && IsSixBit(blob[32 * (4 * r + 3)]);
    RoundLayoutGather(s, blob, r, p);
  }

  lemma LayoutSixBit(data: seq<byte>, w: nat)
    requires |data| <= MAX_BLOB_DATA_SIZE && w < 4096
    ensures IsSixBit(Layout(data)[32 * w])
  {
    hide Value;
    var s, base := Stream(data), 32 * w / ROUND_OUT * ROUND_IN;
    assert 32 * w % ROUND_OUT == w % 4 * 32;
    SplitJoin(s(base + 31), s(base + 63), s(base + 95));
  }

  /** The header bytes at the front of the stream give the length. */
  lemma StreamLength(data: seq<byte>)
    requires |data| <= MAX_BLOB_DATA_SIZE
    ensures StreamByte(data, 0) == ENCODING_VERSION
    ensures HeaderLength(StreamByte(data, 1), StreamByte(data, 2), StreamByte(data, 3)) == |data|
  {
    if data == [] {
      assert HeaderLength(0, 0, 0) == 0;
    } else {
      HeaderRoundTrip(|data|);
    }
  }

  /** Round trip: for every admissible byte string, the empty one included, decoding its layout gives
      it back. */
  lemma DecodeLayout(data: seq<byte>)
    requires |data| <= MAX_BLOB_DATA_SIZE
    ensures Decode(Layout(data)) == Some(data)
  {
    var blob := Layout(data);
    forall n: nat | n < STREAM_SIZE
      ensures Gather(blob, n) == StreamByte(data, n)
    {
      GatherLayout(Stream(data), blob, n);
    }
    forall w: nat | w < 4096
      ensures IsSixBit(blob[32 * w])
    {
      LayoutSixBit(data, w);
    }
    StreamLength(data);
    DecodesTo(blob, data);
  }

  /** Past the data the layout carries only zeros. */
  lemma PastDataIsZero(data: seq<byte>, n: nat)
    requires |data| <= MAX_BLOB_DATA_SIZE && 4 + |data| <= n < STREAM_SIZE
    ensures Gather(Layout(data), n) == 0
  {
    GatherLayout(Stream(data), Layout(data), n);
  }

  lemma DecodesTo(blob: seq<byte>, data: seq<byte>)
    requires |blob| == BYTES_PER_BLOB && |data| <= MAX_BLOB_DATA_SIZE
    requires forall w: nat | w < 4096 :: IsSixBit(blob[32 * w])
    requires forall n: nat | n < STREAM_SIZE :: Gather(blob, n) == StreamByte(data, n)
    requires Gather(blob, 0) == ENCODING_VERSION
    requires HeaderLength(Gather(blob, 1), Gather(blob, 2), Gather(blob, 3)) == |data|
    ensures Decode(blob) == Some(data)
  {
    hide Value, ByteOf;
    forall n: nat | 4 + |data| <= n < STREAM_SIZE
      ensures Gather(blob, n) == 0
    {
      assert Gather(blob, n) == StreamByte(data, n);
    }
    forall i: nat | i < |data|
      ensures Gather(blob, 4 + i) == data[i]
    {
      assert Gather(blob, 4 + i) == StreamByte(data, 4 + i);
    }
    assert data == seq(|data|, i requires 0 <= i < |data| => Gather(blob, 4 + i));
  }

  /** The decoder accepts nothing else: a blob that decodes to some data is that data's layout. */
  lemma LayoutDecode(blob: seq<byte>)
    requires |blob| == BYTES_PER_BLOB && Decode(blob).Some?
    ensures |Decode(blob).value| <= MAX_BLOB_DATA_SIZE
    ensures Layout(Decode(blob).value) == blob
  {
    hide Value, ByteOf;
    var data := Decode(blob).value;
    HeaderUnique(Gather(blob, 1), Gather(blob, 2), Gather(blob, 3));
    forall n: nat | n < STREAM_SIZE
      ensures StreamByte(data, n) == Gather(blob, n)
    {
      if data != [] && n < 4 {
        assert Header(|data|) == [ENCODING_VERSION, Gather(blob, 1), Gather(blob, 2), Gather(blob, 3)];
      } else if data == [] && n < 4 {
        HeaderUnique(Gather(blob, 1), Gather(blob, 2), Gather(blob, 3));
        ZeroHeader();
      }
    }
    forall i | 0 <= i < BYTES_PER_BLOB
      ensures Layout(data)[i] == blob[i]
    {
      LayoutGather(Stream(data), blob, i);
    }
  }

  // ---- field elements ----

  /** `BLS_MODULUS` in the "Parameters" section of EIP-4844. */
  const BLS_MODULUS: nat := 52435875175126190479447740508185965837690552500527637822603658699938581184513

  function BigEndian(bytes: seq<byte>): nat {
    if bytes == [] then 0 else BigEndian(bytes[..|bytes| - 1]) * 256 + Value(bytes[|bytes| - 1])
  }

  function Pow256(n: nat): nat {
    if n == 0 then 1 else 256 * Pow256(n - 1)
  }

  lemma {:induction false} BigEndianBound(bytes: seq<byte>, top: nat)
    requires bytes != [] && Value(bytes[0]) < top
    ensures BigEndian(bytes) < top * Pow256(|bytes| - 1)
  {
    hide Value;
    if |bytes| > 1 {
      var prefix := bytes[..|bytes| - 1];
      BigEndianBound(prefix, top);
      ScaleBound(BigEndian(prefix), top * Pow256(|prefix| - 1), Value(bytes[|bytes| - 1]));
      assert top * (256 * Pow256(|prefix| - 1)) == 256 * (top * Pow256(|prefix| - 1));
    } else {
      assert bytes[..0] == [];
    }
  }

  lemma ScaleBound(n: nat, bound: nat, digit: nat)
    requires n < bound && digit < 256
    ensures n * 256 + digit < 256 * bound
  {
  }

  lemma PowOfWord()
    ensures Pow256(31) == 0x100000000000000000000000000000000000000000000000000000000000000
  {
    assert Pow256(8) == 0x10000000000000000;
    assert Pow256(16) == 0x100000000000000000000000000000000;
    assert Pow256(24) == 0x1000000000000000000000000000000000000000000000000;
  }

  /** Every 32-byte word of a layout is below 2^254, so it is a field element. */
  lemma WordsAreFieldElements(data: seq<byte>, w: nat)
    requires |data| <= MAX_BLOB_DATA_SIZE && w < 4096
    ensures BigEndian(Layout(data)[32 * w..32 * w + 32])
            < 0x4000000000000000000000000000000000000000000000000000000000000000 < BLS_MODULUS
  {
    var word := Layout(data)[32 * w..32 * w + 32];
    LayoutSixBit(data, w);
    SixBitValue(word[0]);
    BigEndianBound(word, 64);
    hide Layout, BigEndian, Pow256;
    PowOfWord();
  }

  lemma SixBitValue(v: byte)
    requires IsSixBit(v)
    ensures Value(v) < 64
  {
  }
}
