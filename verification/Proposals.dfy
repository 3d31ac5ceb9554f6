/** From a batch to an L1 call with blobs, and back. */
module Proposals {
  import opened GatewayTypes
  import opened BlobLayout
  import opened Batches
  import Encoder = BlobEncoder

  const MAX_BLOBS_PER_BLOCK_DENCUN: nat := 6

  datatype BlobParams = BlobParams(numBlobs: nat, byteOffset: nat, byteSize: nat)

  datatype BatchParams = BatchParams(
    proposer: Address, coinbase: Address, parentMetaHash: nat, anchorBlockId: nat, lastBlockTimestamp: nat,
    blocks: seq<BlockParams>, blobParams: BlobParams)

  /** The contract call of a proposal. */
  datatype Call = Call(params: BatchParams, txList: seq<byte>, expectedLastBlockId: nat)

  /** The contract ABI: encoding is injective because decoding undoes it. */
  datatype Abi = Abi(encode: Call -> seq<byte>, decode: seq<byte> -> Option<Call>) {
    ghost predicate Valid() {
      forall c :: decode(encode(c)) == Some(c)
    }
  }

  // ---- many blobs ----

  function Chunks(data: seq<byte>): (chunks: seq<seq<byte>>)
    ensures forall i | 0 <= i < |chunks| :: 0 < |chunks[i]| <= MAX_BLOB_DATA_SIZE
    ensures forall i | 0 <= i < |chunks| - 1 :: |chunks[i]| == MAX_BLOB_DATA_SIZE
    ensures |chunks| == (|data| + MAX_BLOB_DATA_SIZE - 1) / MAX_BLOB_DATA_SIZE
    decreases |data|
  {
    if data == [] then []
    else if |data| <= MAX_BLOB_DATA_SIZE then [data]
    else [data[..MAX_BLOB_DATA_SIZE]] + Chunks(data[MAX_BLOB_DATA_SIZE..])
  }

  /** The bytes of a list of blobs, if every one decodes. */
  ghost function DecodeBlobs(blobs: seq<seq<byte>>): Option<seq<byte>>
    requires forall i | 0 <= i < |blobs| :: |blobs[i]| == BYTES_PER_BLOB
  {
    if blobs == [] then Some([])
    else
      match Decode(blobs[0])
      case None => None
      case Some(data) =>
        match DecodeBlobs(blobs[1..])
        case None => None
        case Some(rest) => Some(data + rest)
  }

  lemma {:induction false} ChunksRoundTrip(data: seq<byte>, blobs: seq<seq<byte>>)
    requires |blobs| == |Chunks(data)|
    requires forall i | 0 <= i < |blobs| :: |blobs[i]| == BYTES_PER_BLOB
    requires forall i | 0 <= i < |blobs| :: Decode(blobs[i]) == Some(Chunks(data)[i])
    ensures DecodeBlobs(blobs) == Some(data)
    decreases |data|
  {
    hide Decode;
    if |data| > MAX_BLOB_DATA_SIZE {
      ChunksRoundTrip(data[MAX_BLOB_DATA_SIZE..], blobs[1..]);
      assert data == data[..MAX_BLOB_DATA_SIZE] + data[MAX_BLOB_DATA_SIZE..];
      assert Decode(blobs[0]) == Some(data[..MAX_BLOB_DATA_SIZE]);
    } else if data != [] {
      assert blobs[1..] == [] && DecodeBlobs(blobs[1..]) == Some([]);
      assert data + [] == data;
    }
  }

  method EncodeBlobs(data: seq<byte>) returns (blobs: seq<seq<byte>>)
    ensures forall i | 0 <= i < |blobs| :: |blobs[i]| == BYTES_PER_BLOB
    ensures |blobs| == (|data| + MAX_BLOB_DATA_SIZE - 1) / MAX_BLOB_DATA_SIZE
    ensures DecodeBlobs(blobs) == Some(data)
  {
    hide Decode, Layout;
    blobs := [];
    var chunks := Chunks(data);
    for i := 0 to |chunks|
      invariant |blobs| == i
      invariant forall k | 0 <= k < i :: |blobs[k]| == BYTES_PER_BLOB
      invariant forall k | 0 <= k < i :: Decode(blobs[k]) == Some(chunks[k])
    {
      var blob := Encoder.EncodeBlob(chunks[i]);
      blobs := blobs + [blob[..]];
    }
    ChunksRoundTrip(data, blobs);
  }

  // ---- calls ----

  function Params(request: Batch, parentMetaHash: nat, proposer: Address, blobs: BlobParams): BatchParams {
    BatchParams(proposer, request.coinbase, parentMetaHash, request.anchorBlockId, request.lastTimestamp,
                request.blockParams, blobs)
  }

  /** Calldata proposal; the size is cast to u32. */
  function CalldataProposal(request: Batch, parentMetaHash: nat, proposer: Address, compressed: seq<byte>): Call {
    Call(Params(request, parentMetaHash, proposer, BlobParams(0, 0, |compressed| % 0x1_0000_0000)), compressed,
         request.endBlockNum)
  }

  /** The size a calldata proposal names is that of its data exactly up to 4 GiB; everything else it carries is
      the batch's, so it is read back like a blob proposal. */
  lemma CalldataSizeExactIff(request: Batch, parentMetaHash: nat, proposer: Address, compressed: seq<byte>)
    ensures
      var call := CalldataProposal(request, parentMetaHash, proposer, compressed);
      && ProposalOf(call, request)
      && call.params == BatchParams(proposer, request.coinbase, parentMetaHash, request.anchorBlockId,
                                    request.lastTimestamp, request.blockParams, call.params.blobParams)
      && call.txList == compressed && call.expectedLastBlockId == request.endBlockNum
      && call.params.blobParams.numBlobs == 0 && call.params.blobParams.byteOffset == 0
      && (call.params.blobParams.byteSize == |call.txList| <==> |compressed| < 0x1_0000_0000)
  {
    var size := |compressed| % 0x1_0000_0000;
    assert CalldataProposal(request, parentMetaHash, proposer, compressed)
        == Call(Params(request, parentMetaHash, proposer, BlobParams(0, 0, size)), compressed, request.endBlockNum);
  }

  /** Blob proposal, or no result where the size assertion stops the process. The counts are cast to u8 and
      u32, and the assertion is what keeps both casts exact. */
  method BlobProposal(request: Batch, parentMetaHash: nat, proposer: Address, compressed: seq<byte>)
    returns (out: Option<(Call, seq<seq<byte>>)>)
    ensures out.Some? <==> |compressed| < (MAX_BLOBS_PER_BLOCK_DENCUN + 1) * MAX_BLOB_DATA_SIZE
    ensures out.Some? ==>
      var (call, sidecar) := out.value;
      && call == Call(BatchParams(proposer, request.coinbase, parentMetaHash, request.anchorBlockId,
                                  request.lastTimestamp, request.blockParams,
                                  BlobParams(|sidecar|, 0, |compressed|)),
                      [], request.endBlockNum)
      && (forall i | 0 <= i < |sidecar| :: |sidecar[i]| == BYTES_PER_BLOB)
      && DecodeBlobs(sidecar) == Some(compressed)
      && |sidecar| == BlobCount(compressed)
  {
    if |compressed| / MAX_BLOB_DATA_SIZE > MAX_BLOBS_PER_BLOCK_DENCUN {
      return None;
    }
    hide DecodeBlobs;
    var blobs := EncodeBlobs(compressed);
    var params := Params(request, parentMetaHash, proposer,
                         BlobParams(|blobs| % 0x100, 0, |compressed| % 0x1_0000_0000));
    return Some((Call(params, [], request.endBlockNum), blobs));
  }

  function BlobCount(compressed: seq<byte>): nat {
    (|compressed| + MAX_BLOB_DATA_SIZE - 1) / MAX_BLOB_DATA_SIZE
  }

  /** The size assertion divides rounding down, so it lets a seventh blob through: it meets the limit of
      six blobs it names exactly on the inputs outside the last, partial step. */
  lemma BlobLimitMetIff(compressed: seq<byte>)
    requires |compressed| / MAX_BLOB_DATA_SIZE <= MAX_BLOBS_PER_BLOCK_DENCUN
    ensures BlobCount(compressed) <= MAX_BLOBS_PER_BLOCK_DENCUN + 1
    ensures BlobCount(compressed) <= MAX_BLOBS_PER_BLOCK_DENCUN
        <==> |compressed| <= MAX_BLOBS_PER_BLOCK_DENCUN * MAX_BLOB_DATA_SIZE
  {
  }

  lemma SevenBlobs() returns (compressed: seq<byte>)
    ensures |compressed| / MAX_BLOB_DATA_SIZE <= MAX_BLOBS_PER_BLOCK_DENCUN
    ensures BlobCount(compressed) == MAX_BLOBS_PER_BLOCK_DENCUN + 1
  {
    compressed := seq(MAX_BLOBS_PER_BLOCK_DENCUN * MAX_BLOB_DATA_SIZE + 1, _ => 0 as byte);
  }

  // ---- reading a call back ----

  /** Start, end and anchor of a proposal call, in u64 arithmetic; the start is computed from the number
      of block parameters. Data that is no call is an error. */
  function DecodeProposal(abi: Abi, data: seq<byte>): Option<(nat, nat, nat)> {
    match abi.decode(data)
    case None => None
    case Some(call) =>
      var last := call.expectedLastBlockId;
      Some(((last - |call.params.blocks| + 1) % U64, last, call.params.anchorBlockId))
  }

  ghost predicate ProposalOf(call: Call, request: Batch) {
    exists metaHash, proposer, blobs, txList ::
      call == Call(Params(request, metaHash, proposer, blobs), txList, request.endBlockNum)
  }

  /** Decoding a batch's call gives its anchor and end, and gives its start exactly when the batch has as
      many block parameters as its range has blocks. */
  lemma DecodesIffCounted(abi: Abi, call: Call, request: Batch)
    requires abi.Valid() && ProposalOf(call, request)
    requires request.startBlockNum <= request.endBlockNum + 1 < U64 && |request.blockParams| < U64
    ensures
      var decoded := DecodeProposal(abi, abi.encode(call));
      && decoded.Some? && decoded.value.1 == request.endBlockNum && decoded.value.2 == request.anchorBlockId
      && (decoded.value.0 == request.startBlockNum
          <==> |request.blockParams| == request.endBlockNum + 1 - request.startBlockNum)
  {
  }

  ghost predicate Contiguous(blocks: seq<L2Block>) {
    forall i | 0 <= i < |blocks| :: blocks[i].number == blocks[0].number + i
  }

  lemma RecordsRange(pk: Packing, first: L2Block, batch: Batch, runs: seq<seq<L2Block>>, k: nat)
    requires k < |runs| && RecordsOpen(pk, first, batch, runs[k])
    requires Flatten(runs) != [] && Flatten(runs)[0] == first && Contiguous(Flatten(runs))
    ensures CountsRange(batch)
    ensures batch.endBlockNum <= Flatten(runs)[|Flatten(runs)| - 1].number
  {
    if runs[k] != [] {
      var at := RunInside(runs, k);
      var blocks, n := Flatten(runs), |runs[k]| - 1;
      hide Flatten;
      assert blocks[at..at + |runs[k]|][0] == blocks[at] && blocks[at..at + |runs[k]|][n] == blocks[at + n];
    }
  }

  /** A batch counts its range with its block parameters, or is empty at a single number. */
  ghost predicate CountsRange(batch: Batch) {
    if batch.blockParams == [] then batch.startBlockNum == batch.endBlockNum
    else |batch.blockParams| == batch.endBlockNum + 1 - batch.startBlockNum
  }

  lemma RequestRange(pk: Packing, blocks: seq<L2Block>, k: nat)
    requires blocks != [] && HaveAnchors(blocks) && Contiguous(blocks)
    requires k < |RequestFromBlocks(pk, blocks)|
    ensures
      var batch := RequestFromBlocks(pk, blocks)[k];
      CountsRange(batch) && batch.anchorBlockId == pk.anchorBlockId && batch.endBlockNum <= blocks[|blocks| - 1].number
  {
    var runs := BatchesPartitionBlocks(pk, blocks);
    var batch := RequestFromBlocks(pk, blocks)[k];
    assert RecordsOpen(pk, blocks[0], batch, runs[k]);
    hide RequestFromBlocks, Runs, Flatten, HaveAnchors, Contiguous, CountsRange;
    RecordsRange(pk, blocks[0], batch, runs, k);
  }

  lemma RangeDecodes(abi: Abi, call: Call, request: Batch)
    requires abi.Valid() && ProposalOf(call, request) && CountsRange(request) && request.endBlockNum + 1 < U64
    ensures
      var start := if request.blockParams == [] then request.startBlockNum + 1 else request.startBlockNum;
      DecodeProposal(abi, abi.encode(call)) == Some((start, request.endBlockNum, request.anchorBlockId))
  {
  }

  /** On contiguous block numbers, the call of every batch that holds a block decodes to that batch's own
      start, end and anchor; the empty first batch of an oversized block decodes to a start one too high. */
  lemma RequestsDecode(abi: Abi, pk: Packing, blocks: seq<L2Block>, k: nat, call: Call)
    requires abi.Valid() && blocks != [] && HaveAnchors(blocks)
    requires Contiguous(blocks) && blocks[|blocks| - 1].number + 1 < U64
    requires k < |RequestFromBlocks(pk, blocks)| && ProposalOf(call, RequestFromBlocks(pk, blocks)[k])
    ensures
      var batch := RequestFromBlocks(pk, blocks)[k];
      var start := if batch.blockParams == [] then batch.startBlockNum + 1 else batch.startBlockNum;
      DecodeProposal(abi, abi.encode(call)) == Some((start, batch.endBlockNum, pk.anchorBlockId))
  {
    hide RequestFromBlocks, HaveAnchors, Contiguous, ProposalOf, DecodeProposal, CountsRange;
    RequestRange(pk, blocks, k);
    RangeDecodes(abi, call, RequestFromBlocks(pk, blocks)[k]);
  }
}
