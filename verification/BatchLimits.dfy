/** Size limits of packed batches, and how tight the packing is. */
module BatchLimits {
  import opened GatewayTypes
  import opened Batches

  /** Batch `i` stays within the block limit and, with two blocks or more, within the size target; a
      later batch was opened only because its first block did not fit the batch before; the recorded
      size estimate is that of its own list, except that a batch opened by a split and holding one
      block records the size of its list together with the previous one. */
  ghost predicate Within(pk: Packing, all: seq<Batch>, runs: seq<seq<L2Block>>, i: nat)
    requires i < |all| == |runs|
  {
    var b := all[i];
    && |runs[i]| == |b.blockParams|
    && (pk.maxBlocks > 0 ==> |b.blockParams| <= pk.maxBlocks)
    && (i > 0 ==>
          && runs[i] != []
          && (|| pk.compress(all[i - 1].allTxList + UserTxs(runs[i][0].txs)) > pk.targetSize
              || |all[i - 1].blockParams| >= pk.maxBlocks))
    && (|b.blockParams| >= 2 || (i == 0 && |b.blockParams| == 1) ==>
          pk.compress(b.allTxList) <= pk.targetSize && b.compressedEst == pk.compress(b.allTxList))
    && (i > 0 && |b.blockParams| == 1 ==> b.compressedEst == pk.compress(all[i - 1].allTxList + b.allTxList))
  }

  lemma WithinNext(pk: Packing, p: Packed, runs: seq<seq<L2Block>>, b: L2Block)
    requires |runs| == |p.All()| && |b.txs| > 0
    requires forall i | 0 <= i < |runs| :: Within(pk, p.All(), runs, i)
    ensures
      var p', runs' := AddBlock(pk, p, b), NextRuns(Splits(pk, p.cur, b), runs, b);
      |runs'| == |p'.All()| && forall i | 0 <= i < |runs'| :: Within(pk, p'.All(), runs', i)
  {
    var p', runs' := AddBlock(pk, p, b), NextRuns(Splits(pk, p.cur, b), runs, b);
    var k := |p.done|;
    assert Within(pk, p.All(), runs, k);
    forall i | 0 <= i < |runs'|
      ensures Within(pk, p'.All(), runs', i)
    {
      if i < k {
        assert Within(pk, p.All(), runs, i);
        assert p'.All()[i] == p.All()[i] && runs'[i] == runs[i];
        assert i > 0 ==> p'.All()[i - 1] == p.All()[i - 1];
      } else if i == k && Splits(pk, p.cur, b) {
        assert p'.All()[i] == p.All()[i] && runs'[i] == runs[i];
        assert i > 0 ==> p'.All()[i - 1] == p.All()[i - 1];
      } else if i == k {
        assert i > 0 ==> p'.All()[i - 1] == p.All()[i - 1] && runs'[i][0] == runs[i][0];
      } else {
        assert p'.All()[i - 1] == p.cur && runs'[i] == [b];
      }
    }
  }

  lemma {:induction false} PackWithin(pk: Packing, first: L2Block, blocks: seq<L2Block>)
    requires HaveAnchors(blocks)
    ensures
      var all, runs := Pack(pk, first, blocks).All(), Runs(pk, first, blocks);
      |all| == |runs| && forall i | 0 <= i < |all| :: Within(pk, all, runs, i)
  {
    if blocks != [] {
      var n := |blocks| - 1;
      PackWithin(pk, first, blocks[..n]);
      WithinNext(pk, Pack(pk, first, blocks[..n]), Runs(pk, first, blocks[..n]), blocks[n]);
      hide Within, AddBlock, NextRuns;
    }
  }

  /** The batches of a request list record consecutive runs of the blocks, each within the limits, and
      each opened only when its first block did not fit: the packing is the greedy one. */
  lemma BatchesWithinLimits(pk: Packing, blocks: seq<L2Block>) returns (runs: seq<seq<L2Block>>)
    requires blocks != [] && HaveAnchors(blocks)
    ensures
      var batches := RequestFromBlocks(pk, blocks);
      && |runs| == |batches|
      && Flatten(runs) == blocks
      && forall i | 0 <= i < |batches| ::
           Records(pk, blocks[0].beneficiary, batches[i], runs[i]) && Within(pk, batches, runs, i)
  {
    PackWithin(pk, blocks[0], blocks);
    hide Within, Records, Runs, Pack, Flatten;
    runs := BatchesPartitionBlocks(pk, blocks);
  }

  /** The first `k + 1` blocks together meet both limits. */
  ghost predicate PrefixFits(pk: Packing, blocks: seq<L2Block>, k: nat)
    requires k < |blocks|
  {
    pk.compress(Flatten(TxLists(blocks[..k + 1]))) <= pk.targetSize && k < pk.maxBlocks
  }

  ghost predicate AllFit(pk: Packing, blocks: seq<L2Block>) {
    forall k | 0 <= k < |blocks| :: PrefixFits(pk, blocks, k)
  }

  lemma PrefixFitsSnoc(pk: Packing, before: seq<L2Block>, b: L2Block, k: nat)
    requires k <= |before|
    ensures PrefixFits(pk, before + [b], k)
            <==> if k < |before| then PrefixFits(pk, before, k)
                 else pk.compress(Flatten(TxLists(before)) + UserTxs(b.txs)) <= pk.targetSize && k < pk.maxBlocks
  {
    TxListsSnoc(before, b);
    hide Flatten, TxLists, UserTxs;
    if k < |before| {
      assert (before + [b])[..k + 1] == before[..k + 1];
    } else {
      assert (before + [b])[..k + 1] == before + [b];
    }
  }

  lemma AllFitSnoc(pk: Packing, before: seq<L2Block>, b: L2Block)
    ensures AllFit(pk, before + [b])
            <==> AllFit(pk, before)
                 && pk.compress(Flatten(TxLists(before)) + UserTxs(b.txs)) <= pk.targetSize && |before| < pk.maxBlocks
  {
    hide PrefixFits, Flatten, TxLists, UserTxs;
    var blocks, n := before + [b], |before|;
    PrefixFitsSnoc(pk, before, b, n);
    if AllFit(pk, blocks) {
      assert PrefixFits(pk, blocks, n);
      forall k | 0 <= k < n
        ensures PrefixFits(pk, before, k)
      {
        assert PrefixFits(pk, blocks, k);
        PrefixFitsSnoc(pk, before, b, k);
      }
    } else {
      var k: nat :| k < |blocks| && !PrefixFits(pk, blocks, k);
      PrefixFitsSnoc(pk, before, b, k);
    }
  }

  lemma {:induction false} NoSplitIff(pk: Packing, first: L2Block, blocks: seq<L2Block>)
    requires HaveAnchors(blocks)
    ensures
      var p := Pack(pk, first, blocks);
      && (p.done == [] <==> AllFit(pk, blocks))
      && (p.done == [] ==> p.cur.allTxList == Flatten(TxLists(blocks)) && |p.cur.blockParams| == |blocks|)
  {
    if blocks == [] {
      assert Flatten(TxLists([])) == [];
    } else {
      var n := |blocks| - 1;
      var before, b := blocks[..n], blocks[n];
      NoSplitIff(pk, first, before);
      assert before + [b] == blocks;
      TxListsSnoc(before, b);
      AllFitSnoc(pk, before, b);
      hide AllFit, Flatten, TxLists, UserTxs;
    }
  }

  /** Exactly one batch comes out when every prefix of the blocks meets both limits. */
  lemma OneBatchIff(pk: Packing, blocks: seq<L2Block>)
    requires blocks != [] && HaveAnchors(blocks)
    ensures |RequestFromBlocks(pk, blocks)| == 1 <==> forall k | 0 <= k < |blocks| :: PrefixFits(pk, blocks, k)
  {
    NoSplitIff(pk, blocks[0], blocks);
    hide PrefixFits, Pack;
    assert |RequestFromBlocks(pk, blocks)| == |Pack(pk, blocks[0], blocks).done| + 1;
  }

  /** The shift of a block from the one before it in its batch: the override, or else the gap in seconds if that
      is neither negative nor above 255, or else 0. The last timestamp is the override or the last block's. */
  ghost predicate ShiftsAre(pk: Packing, batch: Batch, run: seq<L2Block>) {
    && |batch.blockParams| == |run|
    && (run != [] ==>
          batch.lastTimestamp
          == if pk.timestampOverride.Some? then pk.timestampOverride.value else run[|run| - 1].timestamp)
    && forall i | 0 <= i < |run| ::
         var before := if pk.timestampOverride.Some? then pk.timestampOverride.value
                       else run[if i == 0 then 0 else i - 1].timestamp;
         var gap := run[i].timestamp - before;
         batch.blockParams[i].timeShift
         == if pk.timeshiftOverride.Some? then pk.timeshiftOverride.value
            else if 0 <= gap <= 255 then gap else 0
  }

  /** Block by block, the shift every batch records is as stated, over runs that make up the blocks. */
  lemma ShiftsExplicit(pk: Packing, blocks: seq<L2Block>) returns (runs: seq<seq<L2Block>>)
    requires blocks != [] && HaveAnchors(blocks)
    ensures
      var batches := RequestFromBlocks(pk, blocks);
      && |runs| == |batches| && Flatten(runs) == blocks
      && forall k | 0 <= k < |runs| :: ShiftsAre(pk, batches[k], runs[k])
  {
    runs := BatchesPartitionBlocks(pk, blocks);
    var batches := RequestFromBlocks(pk, blocks);
    hide RequestFromBlocks, Runs, Flatten, HaveAnchors;
    forall k | 0 <= k < |runs|
      ensures ShiftsAre(pk, batches[k], runs[k])
    {
      assert RecordsOpen(pk, blocks[0], batches[k], runs[k]);
      RecordedShifts(pk, blocks[0].beneficiary, batches[k], runs[k]);
    }
  }

  lemma RecordedShifts(pk: Packing, coinbase: Address, batch: Batch, run: seq<L2Block>)
    requires Records(pk, coinbase, batch, run)
    ensures ShiftsAre(pk, batch, run)
  {
    hide Flatten, TxLists;
    forall i | 0 <= i < |run|
      ensures
        var before := if pk.timestampOverride.Some? then pk.timestampOverride.value
                      else run[if i == 0 then 0 else i - 1].timestamp;
        var gap := run[i].timestamp - before;
        batch.blockParams[i].timeShift
        == if pk.timeshiftOverride.Some? then pk.timeshiftOverride.value
           else if 0 <= gap <= 255 then gap else 0
    {
      assert RecordsBlock(pk, batch.blockParams, run, i);
    }
  }

  lemma {:induction false} FirstBatch(pk: Packing, first: L2Block, blocks: seq<L2Block>)
    requires blocks != [] && blocks[0] == first && HaveAnchors(blocks)
    ensures |Pack(pk, first, blocks).All()[0].blockParams| == 0 <==> Splits(pk, Opening(pk, first), first)
    ensures |Pack(pk, first, blocks).done| == 0 ==> |Pack(pk, first, blocks).cur.blockParams| > 0
  {
    var n := |blocks| - 1;
    if n == 0 {
      assert blocks[..0] == [];
    } else {
      FirstBatch(pk, first, blocks[..n]);
    }
  }

  /** An empty batch is sent exactly when block 0 alone exceeds the size target, or no block is allowed;
      it is then the first one. */
  lemma EmptyBatchIff(pk: Packing, blocks: seq<L2Block>)
    requires blocks != [] && HaveAnchors(blocks)
    ensures
      var batches := RequestFromBlocks(pk, blocks);
      && (batches[0].blockParams == []
          <==> pk.compress(UserTxs(blocks[0].txs)) > pk.targetSize || pk.maxBlocks == 0)
      && (batches[0].blockParams == [] ==>
            var time := if pk.timestampOverride.Some? then pk.timestampOverride.value else blocks[0].timestamp;
            var number := blocks[0].number;
            batches[0] == Batch(pk.anchorBlockId, number, number, time, [], [], 0, blocks[0].beneficiary))
      && forall i | 0 < i < |batches| :: batches[i].blockParams != []
  {
    FirstBatch(pk, blocks[0], blocks);
    var open := BatchesPartitionBlocks(pk, blocks);
    assert RecordsOpen(pk, blocks[0], RequestFromBlocks(pk, blocks)[0], open[0]);
    var runs := BatchesWithinLimits(pk, blocks);
    assert [] + UserTxs(blocks[0].txs) == UserTxs(blocks[0].txs);
    var batches := RequestFromBlocks(pk, blocks);
    forall i | 0 < i < |batches|
      ensures batches[i].blockParams != []
    {
      assert Within(pk, batches, runs, i);
    }
  }

  /** Every batch starts with shift 0; with both overrides given and a zero shift, as for a reorged
      batch, all shifts are 0 and every batch ends at the given timestamp. */
  lemma ShiftsStartAtZero(pk: Packing, blocks: seq<L2Block>)
    requires blocks != [] && HaveAnchors(blocks)
    requires
      || (pk.timestampOverride.None? && pk.timeshiftOverride.None?)
      || (pk.timestampOverride.Some? && pk.timeshiftOverride == Some(0))
    ensures
      var batches := RequestFromBlocks(pk, blocks);
      forall i | 0 <= i < |batches| && batches[i].blockParams != [] ::
        && batches[i].blockParams[0].timeShift == 0
        && (pk.timestampOverride.Some? ==>
              && batches[i].lastTimestamp == pk.timestampOverride.value
              && forall j | 0 <= j < |batches[i].blockParams| :: batches[i].blockParams[j].timeShift == 0)
  {
    var runs := BatchesWithinLimits(pk, blocks);
    var batches := RequestFromBlocks(pk, blocks);
    forall i, j | 0 <= i < |batches| && 0 <= j < |batches[i].blockParams|
      ensures j == 0 || pk.timestampOverride.Some? ==> batches[i].blockParams[j].timeShift == 0
    {
      assert Records(pk, blocks[0].beneficiary, batches[i], runs[i]);
      assert RecordsBlock(pk, batches[i].blockParams, runs[i], j);
    }
    forall i | 0 <= i < |batches| && batches[i].blockParams != [] && pk.timestampOverride.Some?
      ensures batches[i].lastTimestamp == pk.timestampOverride.value
    {
      assert Records(pk, blocks[0].beneficiary, batches[i], runs[i]);
    }
  }
}
