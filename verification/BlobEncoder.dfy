/** The encoder that fills a blob in place, proved against the layout. */
module BlobEncoder {
  import opened GatewayTypes
  import opened BlobLayout

  /** The data continued with zeros. */
  function Padded(data: seq<byte>, n: nat): byte {
    if n < |data| then data[n] else 0
  }

  /** The stream seen from the data, which start at its fifth byte. */
  lemma StreamIsPadded(data: seq<byte>, at: nat)
    requires 0 < |data| <= MAX_BLOB_DATA_SIZE && at >= 4
    ensures Stream(data)(at) == Padded(data, at - 4)
  {
  }

  /** Reads one byte, or 0 at the end. `at` is the place of the byte in the stream. */
  method Read1(data: seq<byte>, readOffset: nat, ghost at: nat) returns (v: byte, next: nat)
    requires 0 < |data| <= MAX_BLOB_DATA_SIZE && at >= 4 && readOffset == Min(|data|, at - 4)
    ensures v == Stream(data)(at) && next == Min(|data|, at - 3)
  {
    StreamIsPadded(data, at);
    if readOffset >= |data| {
      v, next := 0, readOffset;
    } else {
      v, next := data[readOffset], readOffset + 1;
    }
  }

  /** Reads up to 31 bytes, left-aligned and padded with zeros. */
  method Read31(data: seq<byte>, readOffset: nat, buf31: array<byte>, ghost at: nat) returns (next: nat)
    requires 0 < |data| <= MAX_BLOB_DATA_SIZE && at >= 4
    requires buf31.Length == 31 && readOffset == Min(|data|, at - 4)
    modifies buf31
    ensures next == Min(|data|, at + 27)
    ensures forall k | 0 <= k < 31 :: buf31[k] == Stream(data)(at + k)
  {
    if readOffset >= |data| {
      Fill(buf31, 0);
      next := readOffset;
    } else {
      var n := Min(31, |data| - readOffset);
      CopyInto(buf31, 0, data[readOffset..readOffset + n]);
      Fill(buf31, n);
      next := readOffset + n;
    }
    assert forall k | 0 <= k < 31 :: buf31[k] == Padded(data, at - 4 + k);
    forall k | 0 <= k < 31
      ensures buf31[k] == Stream(data)(at + k)
    {
      StreamIsPadded(data, at + k);
    }
  }

  /** Library slice operation: zeros from `from` on. */
  method Fill(a: array<byte>, from: nat)
    requires from <= a.Length
    modifies a
    ensures forall k | 0 <= k < a.Length :: a[k] == if k < from then old(a[k]) else 0
  {
    forall k | from <= k < a.Length {
      a[k] := 0;
    }
  }

  /** Library slice operation: copies `src` into `a` at `offset`. */
  method CopyInto(a: array<byte>, offset: nat, src: seq<byte>)
    requires offset + |src| <= a.Length
    modifies a
    ensures forall k | 0 <= k < a.Length ::
              a[k] == if offset <= k < offset + |src| then src[k - offset] else old(a[k])
  {
    forall k | 0 <= k < |src| {
      a[offset + k] := src[k];
    }
  }

  method Write1(blob: array<byte>, writeOffset: nat, v: byte) returns (next: nat)
    requires writeOffset < blob.Length && writeOffset % 32 == 0 && IsSixBit(v)
    modifies blob
    ensures next == writeOffset + 1
    ensures forall i | 0 <= i < blob.Length :: blob[i] == if i == writeOffset then v else old(blob[i])
  {
    blob[writeOffset] := v;
    next := writeOffset + 1;
  }

  method Write31(blob: array<byte>, writeOffset: nat, buf31: array<byte>) returns (next: nat)
    requires blob != buf31 && buf31.Length == 31
    requires writeOffset + 31 <= blob.Length && writeOffset % 32 == 1
    modifies blob
    ensures next == writeOffset + 31
    ensures forall i | 0 <= i < blob.Length ::
              blob[i] == if writeOffset <= i < next then buf31[i - writeOffset] else old(blob[i])
  {
    CopyInto(blob, writeOffset, buf31[..]);
    next := writeOffset + 31;
  }

  /** Past the data the stream, and so the layout, is zero. */
  lemma ZeroTail(data: seq<byte>, round: nat, i: nat)
    requires |data| <= MAX_BLOB_DATA_SIZE && i >= round * ROUND_OUT
    requires data == [] || |data| + 4 <= round * ROUND_IN
    ensures LayoutByte(Stream(data), i) == 0
  {
    var r, s := i / ROUND_OUT, Stream(data);
    assert r >= round;
    forall n: nat | n >= r * ROUND_IN
      ensures s(n) == 0
    {
    }
  }

  /** Where the reader stands after `round` rounds, were the data endless. */
  function ReadAt(round: nat): nat {
    if round == 0 then 0 else round * ROUND_IN - 4
  }

  /** The first 31-byte read of a round; in the first round the header takes four of the bytes. */
  method ReadFirst(data: seq<byte>, readOffset: nat, buf31: array<byte>, round: nat) returns (next: nat)
    requires buf31.Length == 31 && 0 < |data| <= MAX_BLOB_DATA_SIZE
    requires readOffset == ReadAt(round) < |data|
    modifies buf31
    ensures next == Min(|data|, round * ROUND_IN + 27)
    ensures forall k | 0 <= k < 31 :: buf31[k] == Stream(data)(round * ROUND_IN + k)
  {
    hide Value, ByteOf;
    if round == 0 {
      buf31[0] := ENCODING_VERSION;
      var len := |data|;
      buf31[1] := ByteOf(len / 0x10000);
      buf31[2] := ByteOf(len / 0x100 % 0x100);
      buf31[3] := ByteOf(len % 0x100);
      var n := Min(27, |data| - readOffset);
      CopyInto(buf31, 4, data[readOffset..readOffset + n]);
      Fill(buf31, 4 + n);
      next := readOffset + n;
      assert forall k | 4 <= k < 31 :: buf31[k] == Padded(data, k - 4);
      assert forall k | 0 <= k < 4 :: buf31[k] == Header(|data|)[k];
    } else {
      next := Read31(data, readOffset, buf31, round * ROUND_IN);
    }
  }

  lemma RunByte(s: nat -> byte, round: nat, w: nat, k: nat)
    requires w < 4 && k < 31
    ensures RoundByte(s, round, 32 * w + 1 + k) == s(round * ROUND_IN + 32 * w + k)
  {
  }

  /** Writes field element `w` of a round: its 6-bit top and its 31-byte run. */
  method WriteElement(blob: array<byte>, writeOffset: nat, v: byte, buf31: array<byte>,
                      ghost s: nat -> byte, ghost round: nat, ghost w: nat) returns (next: nat)
    requires blob != buf31 && blob.Length == BYTES_PER_BLOB && buf31.Length == 31
    requires round < ROUNDS && w < 4 && writeOffset == round * ROUND_OUT + 32 * w
    requires IsSixBit(v) && v == RoundByte(s, round, 32 * w)
    requires forall k | 0 <= k < 31 :: buf31[k] == s(round * ROUND_IN + 32 * w + k)
    modifies blob
    ensures next == writeOffset + 32
    ensures forall i | 0 <= i < blob.Length && !(writeOffset <= i < next) :: blob[i] == old(blob[i])
    ensures forall i | writeOffset <= i < next :: blob[i] == RoundByte(s, round, i - round * ROUND_OUT)
  {
    hide Value, ByteOf, RoundByte;
    next := Write1(blob, writeOffset, v);
    next := Write31(blob, next, buf31);
    forall i | writeOffset < i < next
      ensures blob[i] == RoundByte(s, round, i - round * ROUND_OUT)
    {
      RunByte(s, round, w, i - writeOffset - 1);
    }
  }

  /** The blob between the two offsets is what round `round` of the stream lays out there. */
  ghost predicate Laid(blob: array<byte>, s: nat -> byte, round: nat, from: nat, to: nat)
    requires to <= blob.Length
    reads blob
  {
    forall i | from <= i < to :: i >= round * ROUND_OUT && blob[i] == RoundByte(s, round, i - round * ROUND_OUT)
  }

  /** The first two field elements of a round. */
  method EncodeFront(data: seq<byte>, blob: array<byte>, buf31: array<byte>, round: nat, readOffset: nat,
          writeOffset: nat)
    returns (y: byte, nextRead: nat, nextWrite: nat)
    requires blob != buf31 && blob.Length == BYTES_PER_BLOB && buf31.Length == 31
    requires 0 < |data| <= MAX_BLOB_DATA_SIZE && round < ROUNDS
    requires readOffset == ReadAt(round) < |data| && writeOffset == round * ROUND_OUT
    modifies blob, buf31
    ensures y == Stream(data)(round * ROUND_IN + 63)
    ensures nextRead == Min(|data|, round * ROUND_IN + 60) && nextWrite == writeOffset + 64
    ensures forall i | 0 <= i < blob.Length && !(writeOffset <= i < nextWrite) :: blob[i] == old(blob[i])
    ensures Laid(blob, Stream(data), round, writeOffset, nextWrite)
  {
    ghost var s, base := Stream(data), round * ROUND_IN;
    assert ROUND_OUT == 128 && ROUND_IN == 127;
    RoundTops(s, round);
    hide Value, ByteOf, RoundByte, Stream, IsSixBit;
    var x;
    var ro := ReadFirst(data, readOffset, buf31, round);
    x, ro := Read1(data, ro, base + 31);
    var wo := WriteElement(blob, writeOffset, x & 0x3F, buf31, s, round, 0);

    ro := Read31(data, ro, buf31, base + 32);
    y, ro := Read1(data, ro, base + 63);
    wo := WriteElement(blob, wo, (y & 0x0F) | ((x & 0xC0) >> 2), buf31, s, round, 1);
    nextRead, nextWrite := ro, wo;
  }

  /** The last two field elements of a round; `y` is the byte the front left half written. */
  method EncodeBack(data: seq<byte>, blob: array<byte>, buf31: array<byte>, round: nat, y: byte, readOffset: nat,
          writeOffset: nat)
    returns (nextRead: nat, nextWrite: nat)
    requires blob != buf31 && blob.Length == BYTES_PER_BLOB && buf31.Length == 31
    requires 0 < |data| <= MAX_BLOB_DATA_SIZE && round < ROUNDS
    requires y == Stream(data)(round * ROUND_IN + 63)
    requires readOffset == Min(|data|, round * ROUND_IN + 60) && writeOffset == round * ROUND_OUT + 64
    modifies blob, buf31
    ensures nextRead == Min(|data|, ReadAt(round + 1)) && nextWrite == writeOffset + 64
    ensures forall i | 0 <= i < blob.Length && !(writeOffset <= i < nextWrite) :: blob[i] == old(blob[i])
    ensures Laid(blob, Stream(data), round, writeOffset, nextWrite)
  {
    ghost var s, base := Stream(data), round * ROUND_IN;
    assert ReadAt(round + 1) == base + 123 && ROUND_OUT == 128 && ROUND_IN == 127;
    RoundTops(s, round);
    hide Value, ByteOf, RoundByte, Stream, IsSixBit;
    var z;
    var ro := Read31(data, readOffset, buf31, base + 64);
    z, ro := Read1(data, ro, base + 95);
    var wo := WriteElement(blob, writeOffset, z & 0x3F, buf31, s, round, 2);

    ro := Read31(data, ro, buf31, base + 96);
    wo := WriteElement(blob, wo, ((z & 0xC0) >> 2) | ((y & 0xF0) >> 4), buf31, s, round, 3);
    nextRead, nextWrite := ro, wo;
  }

  /** Reads 127 bytes of the stream and writes the next four field elements. */
  method EncodeRound(data: seq<byte>, blob: array<byte>, buf31: array<byte>, round: nat, readOffset: nat,
          writeOffset: nat)
    returns (nextRead: nat, nextWrite: nat)
    requires blob != buf31 && blob.Length == BYTES_PER_BLOB && buf31.Length == 31
    requires 0 < |data| <= MAX_BLOB_DATA_SIZE && round < ROUNDS
    requires readOffset == ReadAt(round) < |data| && writeOffset == round * ROUND_OUT
    modifies blob, buf31
    ensures nextRead == Min(|data|, ReadAt(round + 1)) && nextWrite == writeOffset + ROUND_OUT
    ensures forall i | 0 <= i < blob.Length && !(writeOffset <= i < nextWrite) :: blob[i] == old(blob[i])
    ensures Laid(blob, Stream(data), round, writeOffset, nextWrite)
  {
    hide Value, ByteOf, RoundByte, Stream;
    var y, ro, wo := EncodeFront(data, blob, buf31, round, readOffset, writeOffset);
    nextRead, nextWrite := EncodeBack(data, blob, buf31, round, y, ro, wo);
  }

  /** The four top bytes of a round, and that each fits six bits. */
  lemma RoundTops(s: nat -> byte, round: nat)
    ensures
      var x, y, z := s(round * ROUND_IN + 31), s(round * ROUND_IN + 63), s(round * ROUND_IN + 95);
      && RoundByte(s, round, 0) == x & 0x3F && IsSixBit(x & 0x3F)
      && RoundByte(s, round, 32) == (y & 0x0F) | ((x & 0xC0) >> 2) && IsSixBit((y & 0x0F) | ((x & 0xC0) >> 2))
      && RoundByte(s, round, 64) == z & 0x3F && IsSixBit(z & 0x3F)
      && RoundByte(s, round, 96) == ((z & 0xC0) >> 2) | ((y & 0xF0) >> 4)
      && IsSixBit(((z & 0xC0) >> 2) | ((y & 0xF0) >> 4))
  {
    SplitJoin(s(round * ROUND_IN + 31), s(round * ROUND_IN + 63), s(round * ROUND_IN + 95));
  }

  /** Encodes up to `MAX_BLOB_DATA_SIZE` bytes; the blob is their layout, so it decodes to them. */
  method EncodeBlob(data: seq<byte>) returns (blob: array<byte>)
    requires |data| <= MAX_BLOB_DATA_SIZE
    ensures fresh(blob) && blob.Length == BYTES_PER_BLOB
    ensures blob[..] == Layout(data)
    ensures Decode(blob[..]) == Some(data)
  {
    hide Value, ByteOf;
    blob := new byte[BYTES_PER_BLOB](_ => 0);
    var buf31 := new byte[31](_ => 0);
    var readOffset, writeOffset, round := 0, 0, 0;
    while round < ROUNDS && readOffset < |data|
      invariant 0 <= round <= ROUNDS && writeOffset == round * ROUND_OUT
      invariant readOffset == Min(|data|, ReadAt(round))
      invariant forall i | 0 <= i < writeOffset :: blob[i] == LayoutByte(Stream(data), i)
      invariant forall i | writeOffset <= i < blob.Length :: blob[i] == 0
    {
      ghost var before := writeOffset;
      readOffset, writeOffset := EncodeRound(data, blob, buf31, round, readOffset, writeOffset);
      forall i | before <= i < writeOffset
        ensures blob[i] == LayoutByte(Stream(data), i)
      {
        RoundPosition(round, i - before);
      }
      round := round + 1;
    }
    assert readOffset == |data|;
    forall i | writeOffset <= i < blob.Length
      ensures blob[i] == LayoutByte(Stream(data), i)
    {
      ZeroTail(data, round, i);
    }
    DecodeLayout(data);
  }
}
