/** Adding one sealed block to the pending batch, and the agreement of that incremental builder with the
    one that packs chain blocks. */
module Sealing {
  import opened GatewayTypes
  import opened Batches

  /** What the sequencer does to its pending batch; the last three stop the process. */
  datatype Outcome =
    | Updated(batch: Batch)
    | AnchorMismatch
    | ShiftTooLarge
    | CountMismatch

  const EMPTY_BATCH: Batch := Batch(0, 0, 0, 0, [], [], 0, 0)

  /** The update made after block `b`, holding `orders`, was sealed on anchor `anchorBlockId`. */
  function Seal(request: Option<Batch>, anchorBlockId: nat, coinbase: Address, b: L2Block, orders: seq<Order>,
          estimate: nat)
    : Outcome
    requires |b.txs| > 0
  {
    var target :=
      if request.None? then
        EMPTY_BATCH.(anchorBlockId := anchorBlockId, startBlockNum := b.number, coinbase := coinbase)
      else request.value;
    var shift := if request.None? then 0 else SaturatingSub(b.timestamp, target.lastTimestamp);
    if target.anchorBlockId != anchorBlockId then AnchorMismatch
    else if shift > 255 then ShiftTooLarge
    else if |b.txs| != |orders| + 1 then CountMismatch
    else
      Updated(target.(
        endBlockNum := b.number,
        lastTimestamp := b.timestamp,
        blockParams := target.blockParams + [BlockParams((|b.txs| - 1) % 0x1_0000, shift)],
        allTxList := target.allTxList + orders,
        compressedEst := target.compressedEst + estimate))
  }

  /** Sealing the blocks one after the other onto an empty request, all on one anchor, each holding
      exactly its user transactions. */
  function SealAll(anchorBlockId: nat, coinbase: Address, blocks: seq<L2Block>, estimate: L2Block -> nat): Outcome
    requires HaveAnchors(blocks) && blocks != []
  {
    var n := |blocks| - 1;
    var b := blocks[n];
    if n == 0 then Seal(None, anchorBlockId, coinbase, b, UserTxs(b.txs), estimate(b))
    else
      match SealAll(anchorBlockId, coinbase, blocks[..n], estimate)
      case Updated(batch) => Seal(Some(batch), anchorBlockId, coinbase, b, UserTxs(b.txs), estimate(b))
      case panic => panic
  }

  ghost predicate GapsFit(blocks: seq<L2Block>) {
    forall i | 0 < i < |blocks| :: SaturatingSub(blocks[i].timestamp, blocks[i - 1].timestamp) <= 255
  }

  /** The packing the incremental builder follows: no overrides. */
  ghost predicate Plain(pk: Packing) {
    pk.timestampOverride.None? && pk.timeshiftOverride.None?
  }

  lemma {:induction false} WellFormedUserTxs(b: L2Block)
    requires WellFormed(b)
    ensures |UserTxs(b.txs)| == |b.txs| - 1
  {
    UserTxsAll(b.txs[1..]);
  }

  /** The block the simulator seals is an anchor transaction followed by the sorted orders, none of which is
      from the anchor account. */
  ghost predicate HoldsOrders(b: L2Block, orders: seq<Order>) {
    WellFormed(b) && b.txs == [b.txs[0]] + orders
  }

  lemma HeldOrders(b: L2Block, orders: seq<Order>)
    requires HoldsOrders(b, orders)
    ensures UserTxs(b.txs) == orders && |b.txs| == |orders| + 1
  {
    assert b.txs[1..] == orders;
    UserTxsAll(orders);
  }

  /** Sealing the blocks succeeds exactly when every gap fits a u8, and then the batch records the
      blocks just as a packed one would. */
  lemma {:induction false} SealAllRecords(pk: Packing, coinbase: Address, blocks: seq<L2Block>,
          estimate: L2Block -> nat)
    requires Plain(pk) && blocks != [] && HaveAnchors(blocks)
    requires forall i | 0 <= i < |blocks| :: WellFormed(blocks[i])
    ensures
      var out := SealAll(pk.anchorBlockId, coinbase, blocks, estimate);
      && (out.Updated? <==> GapsFit(blocks))
      && (out.Updated? ==> Records(pk, coinbase, out.batch, blocks))
      && (!out.Updated? ==> out.ShiftTooLarge?)
  {
    var n := |blocks| - 1;
    var b := blocks[n];
    WellFormedUserTxs(b);
    assert |b.txs| > 0 && blocks == blocks[..n] + [b];
    var out := SealAll(pk.anchorBlockId, coinbase, blocks, estimate);
    if n == 0 {
      assert blocks == [b];
      assert out == Seal(None, pk.anchorBlockId, coinbase, b, UserTxs(b.txs), estimate(b));
      hide SealAll, Seal, Records, UserTxs, WellFormed;
      SealFirst(pk, coinbase, b, estimate(b));
    } else {
      var before := SealAll(pk.anchorBlockId, coinbase, blocks[..n], estimate);
      assert out == if before.Updated?
                    then Seal(Some(before.batch), pk.anchorBlockId, coinbase, b, UserTxs(b.txs), estimate(b))
                    else before;
      hide SealAll, Seal, Records, UserTxs, WellFormed, SaturatingSub;
      SealAllRecords(pk, coinbase, blocks[..n], estimate);
      GapsSnoc(blocks);
      hide GapsFit;
      if before.Updated? {
        SealOne(pk, coinbase, before.batch, blocks[..n], b, estimate(b));
      }
    }
  }

  lemma GapsSnoc(blocks: seq<L2Block>)
    requires |blocks| > 1
    ensures
      var n := |blocks| - 1;
      GapsFit(blocks) <==> GapsFit(blocks[..n]) && SaturatingSub(blocks[n].timestamp, blocks[n - 1].timestamp) <= 255
  {
    var n := |blocks| - 1;
    var before := blocks[..n];
    forall i | 0 < i < n && GapsFit(before)
      ensures SaturatingSub(blocks[i].timestamp, blocks[i - 1].timestamp) <= 255
    {
      assert SaturatingSub(before[i].timestamp, before[i - 1].timestamp) <= 255;
    }
  }

  lemma SealFirst(pk: Packing, coinbase: Address, b: L2Block, estimate: nat)
    requires Plain(pk) && |b.txs| > 0 && |UserTxs(b.txs)| == |b.txs| - 1
    ensures
      var out := Seal(None, pk.anchorBlockId, coinbase, b, UserTxs(b.txs), estimate);
      out.Updated? && Records(pk, coinbase, out.batch, [b])
  {
    TxListsSnoc([], b);
    assert Flatten(TxLists([])) == [] && [] + [b] == [b];
  }

  lemma SealOne(pk: Packing, coinbase: Address, batch: Batch, run: seq<L2Block>, b: L2Block, estimate: nat)
    requires Plain(pk) && run != [] && Records(pk, coinbase, batch, run)
    requires |b.txs| > 0 && |UserTxs(b.txs)| == |b.txs| - 1
    ensures
      var out := Seal(Some(batch), pk.anchorBlockId, coinbase, b, UserTxs(b.txs), estimate);
      && (out.Updated? <==> SaturatingSub(b.timestamp, run[|run| - 1].timestamp) <= 255)
      && (out.Updated? ==> Records(pk, coinbase, out.batch, run + [b]))
      && (!out.Updated? ==> out.ShiftTooLarge?)
  {
    TxListsSnoc(run, b);
    var out := Seal(Some(batch), pk.anchorBlockId, coinbase, b, UserTxs(b.txs), estimate);
    if out.Updated? {
      var run' := run + [b];
      forall i | 0 <= i < |run'|
        ensures RecordsBlock(pk, out.batch.blockParams, run', i)
      {
        if i < |run| {
          assert RecordsBlock(pk, batch.blockParams, run, i);
        }
      }
    }
  }

  /** Recording the same run leaves nothing open but the size estimate. */
  lemma RecordsUnique(pk: Packing, coinbase: Address, a: Batch, b: Batch, run: seq<L2Block>)
    requires run != [] && Records(pk, coinbase, a, run) && Records(pk, coinbase, b, run)
    ensures a == b.(compressedEst := a.compressedEst)
  {
    assert a.blockParams == b.blockParams by {
      forall i | 0 <= i < |run|
        ensures a.blockParams[i] == b.blockParams[i]
      {
        assert RecordsBlock(pk, a.blockParams, run, i) && RecordsBlock(pk, b.blockParams, run, i);
      }
    }
  }

  /** The two builders agree: on blocks of one proposer whose gaps fit, sealing them one by one gives the
      batch that packing them without a split gives, up to the size estimate. If some gap does not fit,
      the sealing builder stops while the packing one records no shift. */
  lemma BuildersAgree(pk: Packing, blocks: seq<L2Block>, estimate: L2Block -> nat)
    requires Plain(pk) && blocks != [] && HaveAnchors(blocks)
    requires forall i | 0 <= i < |blocks| :: WellFormed(blocks[i])
    requires |RequestFromBlocks(pk, blocks)| == 1
    ensures
      var sealed := SealAll(pk.anchorBlockId, blocks[0].beneficiary, blocks, estimate);
      var packed := RequestFromBlocks(pk, blocks)[0];
      && (sealed.Updated? <==> GapsFit(blocks))
      && (sealed.Updated? ==> sealed.batch == packed.(compressedEst := sealed.batch.compressedEst))
      && (!sealed.Updated? ==> sealed == ShiftTooLarge)
  {
    hide SealAll, Records, RequestFromBlocks, WellFormed;
    SealAllRecords(pk, blocks[0].beneficiary, blocks, estimate);
    OneBatchRecords(pk, blocks);
    var sealed := SealAll(pk.anchorBlockId, blocks[0].beneficiary, blocks, estimate);
    if sealed.Updated? {
      RecordsUnique(pk, blocks[0].beneficiary, sealed.batch, RequestFromBlocks(pk, blocks)[0], blocks);
    }
  }
}
