/** Proposal batches: what they carry, what the L1 inbox reads back from them, and the builder that
    packs chain blocks into them. */
module Batches {
  import opened GatewayTypes

  /** Sender of the anchor transaction of every block. */
  const GOLDEN_TOUCH_ADDRESS: Address := 0x0000777735367b36bC9B61C50022d9D0700dB4Ec

  datatype L2Block = L2Block(number: nat, timestamp: nat, beneficiary: Address, txs: seq<Order>)

  datatype BlockParams = BlockParams(numTransactions: nat, timeShift: nat)

  datatype Batch = Batch(
    anchorBlockId: nat, startBlockNum: nat, endBlockNum: nat, lastTimestamp: nat, blockParams: seq<BlockParams>,
    allTxList: seq<Order>, compressedEst: nat, coinbase: Address)

  function UserTxs(txs: seq<Order>): seq<Order> {
    if txs == [] then []
    else (if txs[0].sender != GOLDEN_TOUCH_ADDRESS then [txs[0]] else []) + UserTxs(txs[1..])
  }

  /** An anchor transaction first, and user transactions after it. */
  ghost predicate WellFormed(b: L2Block) {
    && 0 < |b.txs|
    && b.txs[0].sender == GOLDEN_TOUCH_ADDRESS
    && forall i | 0 < i < |b.txs| :: b.txs[i].sender != GOLDEN_TOUCH_ADDRESS
  }

  /** A u16 counts the block's user transactions. */
  predicate CountFits(b: L2Block) {
    |b.txs| <= 0x1_0000
  }

  predicate CountsFit(blocks: seq<L2Block>) {
    forall i | 0 <= i < |blocks| :: CountFits(blocks[i])
  }

  /** No gap inside a run is negative or above 255 seconds. */
  predicate TimesFit(run: seq<L2Block>) {
    forall i | 0 < i < |run| :: 0 <= run[i].timestamp - run[i - 1].timestamp <= 255
  }

  lemma {:induction false} UserTxsAll(txs: seq<Order>)
    requires forall i | 0 <= i < |txs| :: txs[i].sender != GOLDEN_TOUCH_ADDRESS
    ensures UserTxs(txs) == txs
  {
    if txs != [] {
      UserTxsAll(txs[1..]);
    }
  }

  lemma UserTxsHead(txs: seq<Order>)
    requires txs != []
    ensures UserTxs(txs) == UserTxs([txs[0]]) + UserTxs(txs[1..])
    ensures UserTxs([txs[0]]) == if txs[0].sender != GOLDEN_TOUCH_ADDRESS then [txs[0]] else []
  {
    assert UserTxs([]) == [] && [txs[0]][1..] == [];
  }

  lemma ConcatAssoc<T>(a: seq<T>, b: seq<T>, c: seq<T>)
    ensures a + (b + c) == (a + b) + c
  {
  }

  /** Part by part, the user transactions are those of other senders than the anchor account, in their order. */
  lemma {:induction false} UserTxsConcat(a: seq<Order>, b: seq<Order>)
    ensures UserTxs(a + b) == UserTxs(a) + UserTxs(b)
  {
    if a == [] {
      assert a + b == b && UserTxs(a) == [];
    } else {
      UserTxsHead(a);
      UserTxsHead(a + b);
      UserTxsConcat(a[1..], b);
      ConcatAssoc(UserTxs([a[0]]), UserTxs(a[1..]), UserTxs(b));
      hide *;
      assert (a + b)[1..] == a[1..] + b;
    }
  }

  function SaturatingSub(a: nat, b: nat): nat {
    if a >= b then a - b else 0
  }

  // ---- what a batch says ----

  /** Timestamps of a batch's blocks: the last one is given, each shift leads back to its parent. */
  function Times(last: int, params: seq<BlockParams>): seq<int>
    decreases |params|
  {
    if params == [] then []
    else Times(last - params[|params| - 1].timeShift, params[..|params| - 1]) + [last]
  }

  /** The transaction list cut by the blocks' counts; missing transactions are simply not there. */
  function Slices(txs: seq<Order>, params: seq<BlockParams>): seq<seq<Order>>
    decreases |params|
  {
    if params == [] then []
    else
      var n := params[0].numTransactions;
      if n <= |txs| then [txs[..n]] + Slices(txs[n..], params[1..]) else [txs] + Slices([], params[1..])
  }

  function Timestamps(run: seq<L2Block>): seq<int> {
    seq(|run|, i requires 0 <= i < |run| => run[i].timestamp)
  }

  function TxLists(run: seq<L2Block>): seq<seq<Order>> {
    seq(|run|, i requires 0 <= i < |run| => UserTxs(run[i].txs))
  }

  function Flatten<T>(parts: seq<seq<T>>): seq<T> {
    if parts == [] then [] else Flatten(parts[..|parts| - 1]) + parts[|parts| - 1]
  }

  lemma {:induction false} FlattenConcat<T>(a: seq<seq<T>>, b: seq<seq<T>>)
    ensures Flatten(a + b) == Flatten(a) + Flatten(b)
  {
    if b == [] {
      assert a + b == a;
    } else {
      var b' := b[..|b| - 1];
      assert (a + b)[..|a + b| - 1] == a + b';
      FlattenConcat(a, b');
    }
  }

  ghost predicate ShiftsAreGaps(params: seq<BlockParams>, ts: seq<int>)
    requires |params| == |ts|
  {
    forall i | 0 < i < |ts| :: params[i].timeShift == ts[i] - ts[i - 1]
  }

  /** Shifts lead back to the given timestamps exactly when each is the gap to the block before. */
  lemma {:induction false} TimesExact(params: seq<BlockParams>, ts: seq<int>)
    requires |params| == |ts| > 0
    ensures Times(ts[|ts| - 1], params) == ts <==> ShiftsAreGaps(params, ts)
  {
    var n := |ts| - 1;
    if n == 0 {
      assert Times(ts[0] - params[0].timeShift, params[..0]) == [];
    } else {
      var params', ts', before := params[..n], ts[..n], ts[n] - params[n].timeShift;
      assert Times(ts[n], params) == Times(before, params') + [ts[n]];
      hide Times, ShiftsAreGaps;
      TimesEnds(before, params');
      assert ts == ts' + [ts[n]];
      SnocEqual(Times(before, params'), ts', ts[n]);
      ShiftsSnoc(params, ts);
      TimesExact(params', ts');
      if Times(before, params') == ts' {
        assert before == ts'[n - 1];
      }
    }
  }

  lemma SnocEqual(a: seq<int>, b: seq<int>, x: int)
    ensures a + [x] == b + [x] <==> a == b
  {
    if a + [x] == b + [x] {
      assert (a + [x])[..|a|] == a && (b + [x])[..|b|] == b;
    }
  }

  lemma ShiftsSnoc(params: seq<BlockParams>, ts: seq<int>)
    requires |params| == |ts| > 1
    ensures
      var n := |ts| - 1;
      ShiftsAreGaps(params, ts)
      <==> params[n].timeShift == ts[n] - ts[n - 1] && ShiftsAreGaps(params[..n], ts[..n])
  {
    var n := |ts| - 1;
    assert forall i | 0 < i < n :: params[..n][i] == params[i] && ts[..n][i] - ts[..n][i - 1] == ts[i] - ts[i - 1];
  }

  lemma TimesEnds(last: int, params: seq<BlockParams>)
    requires params != []
    ensures |Times(last, params)| == |params| && Times(last, params)[|params| - 1] == last
  {
    TimesLength(last - params[|params| - 1].timeShift, params[..|params| - 1]);
  }

  lemma {:induction false} TimesLength(last: int, params: seq<BlockParams>)
    ensures |Times(last, params)| == |params|
    decreases |params|
  {
    if params != [] {
      TimesLength(last - params[|params| - 1].timeShift, params[..|params| - 1]);
    }
  }

  ghost predicate CountsOf(params: seq<BlockParams>, lists: seq<seq<Order>>) {
    && |params| == |lists|
    && forall i | 0 <= i < |lists| :: params[i].numTransactions == |lists[i]| % 0x1_0000
  }

  /** Counts cast to u16 cut the joined list back into its parts exactly when each part is below 2^16. */
  lemma {:induction false} SlicesExact(params: seq<BlockParams>, lists: seq<seq<Order>>, txs: seq<Order>)
    requires CountsOf(params, lists) && txs == Flatten(lists)
    ensures Slices(txs, params) == lists <==> forall i | 0 <= i < |lists| :: |lists[i]| < 0x1_0000
  {
    if lists != [] {
      var tail, n := Flatten(lists[1..]), params[0].numTransactions;
      FlattenHead(lists);
      assert n <= |lists[0]| <= |txs| && Slices(txs, params) == [txs[..n]] + Slices(txs[n..], params[1..]);
      assert forall i | 0 < i < |lists| :: lists[i] == lists[1..][i - 1];
      assert lists == [lists[0]] + lists[1..];
      if |lists[0]| < 0x1_0000 {
        assert txs[..n] == lists[0] && txs[n..] == tail;
        SlicesExact(params[1..], lists[1..], tail);
        hide Slices, Flatten;
        assert Slices(txs, params)[1..] == Slices(tail, params[1..]);
      } else {
        assert |txs[..n]| < |lists[0]| && Slices(txs, params)[0] == txs[..n];
      }
    }
  }

  lemma FlattenHead<T>(parts: seq<seq<T>>)
    requires parts != []
    ensures Flatten(parts) == parts[0] + Flatten(parts[1..])
  {
    assert parts == [parts[0]] + parts[1..];
    FlattenConcat([parts[0]], parts[1..]);
    assert Flatten([parts[0]]) == parts[0] by {
      assert [parts[0]][..0] == [];
    }
  }

  lemma {:induction false} SlicesLength(txs: seq<Order>, params: seq<BlockParams>)
    ensures |Slices(txs, params)| == |params|
    decreases |params|
  {
    if params != [] {
      var n := params[0].numTransactions;
      SlicesLength(if n <= |txs| then txs[n..] else [], params[1..]);
    }
  }

  // ---- packing chain blocks ----

  /** Arguments of `request_from_blocks`; `compress` is the length of an encoded transaction list. */
  datatype Packing = Packing(
    anchorBlockId: nat, timestampOverride: Option<nat>, timeshiftOverride: Option<nat>,
    maxBlocks: nat, targetSize: nat, compress: seq<Order> -> nat)
  {
    function TimestampOf(b: L2Block): nat {
      if timestampOverride.Some? then timestampOverride.value else b.timestamp
    }

    /** A gap too large for a u8 is logged and recorded as no shift at all. */
    function ShiftOf(b: L2Block, lastTimestamp: nat): nat {
      if timeshiftOverride.Some? then timeshiftOverride.value
      else
        var gap := SaturatingSub(b.timestamp, lastTimestamp);
        if gap <= 255 then gap else 0
    }
  }

  datatype Packed = Packed(done: seq<Batch>, cur: Batch) {
    function All(): seq<Batch> {
      done + [cur]
    }
  }

  predicate Splits(pk: Packing, cur: Batch, b: L2Block) {
    pk.compress(cur.allTxList + UserTxs(b.txs)) > pk.targetSize || |cur.blockParams| >= pk.maxBlocks
  }

  function Opening(pk: Packing, first: L2Block): Batch {
    Batch(pk.anchorBlockId, first.number, first.number, pk.TimestampOf(first), [], [], 0, first.beneficiary)
  }

  /** The batch block `b` goes to, before its own parameters are added. */
  function Target(pk: Packing, cur: Batch, b: L2Block): Batch {
    var size := pk.compress(cur.allTxList + UserTxs(b.txs));
    if Splits(pk, cur, b)
    then Batch(pk.anchorBlockId, b.number, 0, pk.TimestampOf(b), [], UserTxs(b.txs), size, cur.coinbase)
    else cur.(allTxList := cur.allTxList + UserTxs(b.txs), compressedEst := size)
  }

  function AddBlock(pk: Packing, p: Packed, b: L2Block): Packed
    requires |b.txs| > 0
  {
    var target := Target(pk, p.cur, b);
    Packed(
      if Splits(pk, p.cur, b) then p.done + [p.cur] else p.done,
      target.(lastTimestamp := pk.TimestampOf(b),
              endBlockNum := b.number,
              blockParams := target.blockParams
                             + [BlockParams((|b.txs| - 1) % 0x1_0000, pk.ShiftOf(b, target.lastTimestamp))]))
  }

  predicate HaveAnchors(blocks: seq<L2Block>) {
    forall i | 0 <= i < |blocks| :: |blocks[i].txs| > 0
  }

  function Pack(pk: Packing, first: L2Block, blocks: seq<L2Block>): Packed
    requires HaveAnchors(blocks)
  {
    if blocks == [] then Packed([], Opening(pk, first))
    else AddBlock(pk, Pack(pk, first, blocks[..|blocks| - 1]), blocks[|blocks| - 1])
  }

  function RequestFromBlocks(pk: Packing, blocks: seq<L2Block>): seq<Batch>
    requires blocks != [] && HaveAnchors(blocks)
  {
    Pack(pk, blocks[0], blocks).All()
  }

  method FilterUserTxs(txs: seq<Order>) returns (kept: seq<Order>)
    ensures kept == UserTxs(txs)
  {
    kept := [];
    for i := 0 to |txs|
      invariant kept == UserTxs(txs[..i])
    {
      assert txs[..i + 1] == txs[..i] + [txs[i]];
      UserTxsConcat(txs[..i], [txs[i]]);
      UserTxsHead([txs[i]]);
      hide UserTxs;
      if txs[i].sender != GOLDEN_TOUCH_ADDRESS {
        kept := kept + [txs[i]];
      }
    }
    assert txs[..|txs|] == txs;
  }

  /** Packs the blocks in one pass over two mutable locals, the finished batches and the current one. */
  method BuildRequests(pk: Packing, blocks: seq<L2Block>) returns (batches: seq<Batch>)
    requires blocks != [] && HaveAnchors(blocks)
    ensures batches == RequestFromBlocks(pk, blocks)
  {
    batches := [];
    var cur := Opening(pk, blocks[0]);
    var coinbase := blocks[0].beneficiary;
    var i := 0;
    while i < |blocks|
      invariant 0 <= i <= |blocks| && cur.coinbase == coinbase
      invariant Packed(batches, cur) == Pack(pk, blocks[0], blocks[..i])
    {
      var block := blocks[i];
      var blockTxs := |block.txs| - 1;
      var txs := FilterUserTxs(block.txs);
      var newList := cur.allTxList + txs;
      var compressed := pk.compress(newList);
      if compressed > pk.targetSize || |cur.blockParams| >= pk.maxBlocks {
        batches := batches + [cur];
        cur := Batch(pk.anchorBlockId, block.number, 0, pk.TimestampOf(block), [], txs, compressed, coinbase);
      } else {
        cur := cur.(allTxList := newList, compressedEst := compressed);
      }
      var shift := pk.ShiftOf(block, cur.lastTimestamp);
      cur := cur.(lastTimestamp := pk.TimestampOf(block), endBlockNum := block.number,
                  blockParams := cur.blockParams + [BlockParams(blockTxs % 0x1_0000, shift)]);
      assert blocks[..i + 1][..i] == blocks[..i];
      hide UserTxs;
      i := i + 1;
    }
    assert blocks[..i] == blocks;
    batches := batches + [cur];
  }

  // ---- packing is a lossless partition ----

  /** The runs behind the batches after one more block. */
  ghost function NextRuns(splits: bool, runs: seq<seq<L2Block>>, b: L2Block): (next: seq<seq<L2Block>>)
    requires runs != []
    ensures |next| == |runs| + if splits then 1 else 0
    ensures Flatten(next) == Flatten(runs) + [b]
  {
    var k := |runs| - 1;
    if splits then
      assert (runs + [[b]])[..k + 1] == runs;
      runs + [[b]]
    else
      assert (runs[..k] + [runs[k] + [b]])[..k] == runs[..k];
      runs[..k] + [runs[k] + [b]]
  }

  /** The blocks behind each batch, the current one last. */
  ghost function Runs(pk: Packing, first: L2Block, blocks: seq<L2Block>): (runs: seq<seq<L2Block>>)
    requires HaveAnchors(blocks)
    ensures |runs| == |Pack(pk, first, blocks).done| + 1
    ensures Flatten(runs) == blocks
  {
    if blocks == [] then
      assert Flatten<L2Block>([[]]) == [];
      [[]]
    else
      var n := |blocks| - 1;
      assert blocks == blocks[..n] + [blocks[n]];
      NextRuns(Splits(pk, Pack(pk, first, blocks[..n]).cur, blocks[n]), Runs(pk, first, blocks[..n]), blocks[n])
  }

  /** Block `i` of a run: its transaction count, and its shift from the block before; the first block of
      a run is measured against itself. */
  ghost predicate RecordsBlock(pk: Packing, params: seq<BlockParams>, run: seq<L2Block>, i: nat)
    requires i < |run| == |params|
  {
    var previous := if i == 0 then run[0] else run[i - 1];
    && |run[i].txs| > 0
    && params[i].numTransactions == (|run[i].txs| - 1) % 0x1_0000
    && params[i].timeShift == pk.ShiftOf(run[i], pk.TimestampOf(previous))
  }

  /** What a batch records about the run of blocks behind it. */
  ghost predicate Records(pk: Packing, coinbase: Address, batch: Batch, run: seq<L2Block>) {
    && batch.anchorBlockId == pk.anchorBlockId && batch.coinbase == coinbase
    && |batch.blockParams| == |run|
    && batch.allTxList == Flatten(TxLists(run))
    && (forall i | 0 <= i < |run| :: RecordsBlock(pk, batch.blockParams, run, i))
    && (run != [] ==>
          && batch.startBlockNum == run[0].number
          && batch.endBlockNum == run[|run| - 1].number
          && batch.lastTimestamp == pk.TimestampOf(run[|run| - 1]))
  }

  lemma TxListsSnoc(run: seq<L2Block>, b: L2Block)
    ensures Flatten(TxLists(run + [b])) == Flatten(TxLists(run)) + UserTxs(b.txs)
  {
    assert TxLists(run + [b])[..|run|] == TxLists(run);
  }

  /** A batch with no block is still as it was opened, at the first block. */
  ghost predicate RecordsOpen(pk: Packing, first: L2Block, batch: Batch, run: seq<L2Block>) {
    && Records(pk, first.beneficiary, batch, run)
    && (run == [] ==> batch == Opening(pk, first))
  }

  lemma RecordsOne(pk: Packing, coinbase: Address, cur: Batch, b: L2Block)
    requires cur.coinbase == coinbase && Splits(pk, cur, b) && |b.txs| > 0
    ensures Records(pk, coinbase, AddBlock(pk, Packed([], cur), b).cur, [b])
  {
    TxListsSnoc([], b);
    assert Flatten(TxLists([])) == [] && [] + [b] == [b];
    hide UserTxs, Flatten, TxLists, Packing.ShiftOf, Packing.TimestampOf, Splits;
  }

  lemma RecordsMore(pk: Packing, first: L2Block, cur: Batch, run: seq<L2Block>, b: L2Block)
    requires RecordsOpen(pk, first, cur, run) && !Splits(pk, cur, b) && |b.txs| > 0
    requires run == [] ==> b == first
    ensures Records(pk, first.beneficiary, AddBlock(pk, Packed([], cur), b).cur, run + [b])
  {
    TxListsSnoc(run, b);
    assert Flatten(TxLists([])) == [];
    var next, run' := AddBlock(pk, Packed([], cur), b).cur, run + [b];
    assert next == cur.(
      allTxList := cur.allTxList + UserTxs(b.txs), compressedEst := next.compressedEst,
      lastTimestamp := pk.TimestampOf(b), endBlockNum := b.number,
      blockParams := cur.blockParams + [BlockParams((|b.txs| - 1) % 0x1_0000, pk.ShiftOf(b, cur.lastTimestamp))]);
    hide UserTxs, Flatten, TxLists, Packing.ShiftOf, Packing.TimestampOf, Splits, AddBlock;
    forall i | 0 <= i < |run'|
      ensures RecordsBlock(pk, next.blockParams, run', i)
    {
      if i < |run| {
        assert RecordsBlock(pk, cur.blockParams, run, i);
      }
    }
  }

  lemma RecordsNext(pk: Packing, first: L2Block, cur: Batch, run: seq<L2Block>, b: L2Block)
    requires RecordsOpen(pk, first, cur, run) && |b.txs| > 0
    requires run == [] ==> b == first
    ensures
      var next := AddBlock(pk, Packed([], cur), b).cur;
      RecordsOpen(pk, first, next, if Splits(pk, cur, b) then [b] else run + [b])
  {
    if Splits(pk, cur, b) {
      RecordsOne(pk, first.beneficiary, cur, b);
    } else {
      RecordsMore(pk, first, cur, run, b);
    }
    hide Records, AddBlock, Splits;
  }

  ghost predicate AllRecord(pk: Packing, first: L2Block, p: Packed, runs: seq<seq<L2Block>>) {
    && |runs| == |p.done| + 1
    && (forall i | 0 <= i < |p.done| :: RecordsOpen(pk, first, p.done[i], runs[i]))
    && RecordsOpen(pk, first, p.cur, runs[|p.done|])
  }

  lemma AllRecordNext(pk: Packing, first: L2Block, p: Packed, runs: seq<seq<L2Block>>, b: L2Block)
    requires AllRecord(pk, first, p, runs) && |b.txs| > 0
    requires runs[|p.done|] == [] ==> b == first
    ensures AllRecord(pk, first, AddBlock(pk, p, b), NextRuns(Splits(pk, p.cur, b), runs, b))
  {
    RecordsNext(pk, first, p.cur, runs[|p.done|], b);
    hide Records, Splits, Target;
    var p', runs' := AddBlock(pk, p, b), NextRuns(Splits(pk, p.cur, b), runs, b);
    assert p'.cur == AddBlock(pk, Packed([], p.cur), b).cur;
  }

  lemma {:induction false} PackRecords(pk: Packing, first: L2Block, blocks: seq<L2Block>)
    requires HaveAnchors(blocks) && (blocks != [] ==> blocks[0] == first)
    ensures
      var p, runs := Pack(pk, first, blocks), Runs(pk, first, blocks);
      && AllRecord(pk, first, p, runs)
      && (blocks != [] ==> runs[|p.done|] != [])
  {
    if blocks == [] {
      assert Flatten(TxLists([])) == [];
    } else {
      var n := |blocks| - 1;
      PackRecords(pk, first, blocks[..n]);
      AllRecordNext(pk, first, Pack(pk, first, blocks[..n]), Runs(pk, first, blocks[..n]), blocks[n]);
      hide AllRecord;
    }
  }

  lemma EachRecords(pk: Packing, first: L2Block, p: Packed, runs: seq<seq<L2Block>>)
    requires AllRecord(pk, first, p, runs)
    ensures forall i | 0 <= i < |p.All()| :: RecordsOpen(pk, first, p.All()[i], runs[i])
  {
    hide RecordsOpen;
  }

  /** The batches are the blocks in order, each block in exactly one batch: they record consecutive
      runs whose concatenation is the input. */
  lemma BatchesPartitionBlocks(pk: Packing, blocks: seq<L2Block>) returns (runs: seq<seq<L2Block>>)
    requires blocks != [] && HaveAnchors(blocks)
    ensures
      var batches := RequestFromBlocks(pk, blocks);
      && runs == Runs(pk, blocks[0], blocks)
      && |runs| == |batches|
      && Flatten(runs) == blocks
      && forall i | 0 <= i < |batches| :: RecordsOpen(pk, blocks[0], batches[i], runs[i])
  {
    PackRecords(pk, blocks[0], blocks);
    runs := Runs(pk, blocks[0], blocks);
    assert Flatten(runs) == blocks;
    hide Runs, Pack, Flatten, AllRecord, RecordsOpen;
    EachRecords(pk, blocks[0], Pack(pk, blocks[0], blocks), runs);
  }

  lemma OneBatchRecords(pk: Packing, blocks: seq<L2Block>)
    requires blocks != [] && HaveAnchors(blocks) && |RequestFromBlocks(pk, blocks)| == 1
    ensures Records(pk, blocks[0].beneficiary, RequestFromBlocks(pk, blocks)[0], blocks)
  {
    var runs := BatchesPartitionBlocks(pk, blocks);
    hide RequestFromBlocks, Records, Runs;
    assert runs == [runs[0]] && runs[..0] == [];
    assert Flatten(runs) == runs[0];
  }

  /** Slicing a batch's transaction list by its counts restores every block's user transactions exactly when a
      u16 counts them. */
  lemma RecordsRestoreTxs(pk: Packing, coinbase: Address, batch: Batch, run: seq<L2Block>)
    requires Records(pk, coinbase, batch, run)
    requires forall i | 0 <= i < |run| :: WellFormed(run[i])
    ensures Slices(batch.allTxList, batch.blockParams) == TxLists(run) <==> CountsFit(run)
  {
    forall i | 0 <= i < |run|
      ensures |TxLists(run)[i]| == |run[i].txs| - 1
      ensures batch.blockParams[i].numTransactions == |TxLists(run)[i]| % 0x1_0000
    {
      UserTxsAll(run[i].txs[1..]);
      assert RecordsBlock(pk, batch.blockParams, run, i);
    }
    SlicesExact(batch.blockParams, TxLists(run), batch.allTxList);
    assert CountsFit(run) <==> forall i | 0 <= i < |run| :: |TxLists(run)[i]| < 0x1_0000 by {
      assert forall i | 0 <= i < |run| :: CountFits(run[i]) <==> |TxLists(run)[i]| < 0x1_0000;
    }
  }

  /** Without overrides the shifts restore the run's timestamps exactly when no gap inside the run is
      negative or above 255. */
  lemma RecordsRestoreTimes(pk: Packing, coinbase: Address, batch: Batch, run: seq<L2Block>)
    requires Records(pk, coinbase, batch, run)
    requires pk.timestampOverride.None? && pk.timeshiftOverride.None?
    ensures Times(batch.lastTimestamp, batch.blockParams) == Timestamps(run) <==> TimesFit(run)
  {
    if run != [] {
      var ts := Timestamps(run);
      TimesExact(batch.blockParams, ts);
      forall i | 0 < i < |run|
        ensures var gap := SaturatingSub(run[i].timestamp, run[i - 1].timestamp);
                batch.blockParams[i].timeShift == if gap <= 255 then gap else 0
      {
        assert RecordsBlock(pk, batch.blockParams, run, i);
      }
      hide Records, Times, SaturatingSub;
      GapsExact(batch.blockParams, run);
    }
  }

  lemma GapsExact(params: seq<BlockParams>, run: seq<L2Block>)
    requires |params| == |run|
    requires forall i | 0 < i < |run| ::
               var gap := SaturatingSub(run[i].timestamp, run[i - 1].timestamp);
               params[i].timeShift == if gap <= 255 then gap else 0
    ensures ShiftsAreGaps(params, Timestamps(run))
        <==> forall i | 0 < i < |run| :: 0 <= run[i].timestamp - run[i - 1].timestamp <= 255
  {
    forall i | 0 < i < |run|
      ensures params[i].timeShift == Timestamps(run)[i] - Timestamps(run)[i - 1]
              <==> 0 <= run[i].timestamp - run[i - 1].timestamp <= 255
    {
      ShiftIsGap(run[i].timestamp, run[i - 1].timestamp);
    }
  }

  lemma ShiftIsGap(t: nat, prev: nat)
    ensures var gap := SaturatingSub(t, prev);
            (if gap <= 255 then gap else 0) == t - prev <==> 0 <= t - prev <= 255
  {
  }

  /** What the batches say about their blocks' timestamps, batch by batch. */
  ghost function ReadTimes(batches: seq<Batch>): (r: seq<seq<int>>) {
    seq(|batches|, i requires 0 <= i < |batches| => Times(batches[i].lastTimestamp, batches[i].blockParams))
  }

  ghost function ReadTxs(batches: seq<Batch>): (r: seq<seq<seq<Order>>>) {
    seq(|batches|, i requires 0 <= i < |batches| => Slices(batches[i].allTxList, batches[i].blockParams))
  }

  ghost function RunTimes(runs: seq<seq<L2Block>>): (r: seq<seq<int>>) {
    seq(|runs|, i requires 0 <= i < |runs| => Timestamps(runs[i]))
  }

  ghost function RunTxs(runs: seq<seq<L2Block>>): (r: seq<seq<seq<Order>>>) {
    seq(|runs|, i requires 0 <= i < |runs| => TxLists(runs[i]))
  }

  /** Two lists of parts with the same lengths join to the same whole exactly when they are equal. */
  lemma {:induction false} FlattenEqual<T>(a: seq<seq<T>>, b: seq<seq<T>>)
    requires |a| == |b| && forall i | 0 <= i < |a| :: |a[i]| == |b[i]|
    ensures Flatten(a) == Flatten(b) <==> a == b
    ensures |Flatten(a)| == |Flatten(b)|
  {
    if a != [] {
      var n := |a| - 1;
      FlattenEqual(a[..n], b[..n]);
      var wholeA, wholeB := Flatten(a[..n]), Flatten(b[..n]);
      assert Flatten(a) == wholeA + a[n] && Flatten(b) == wholeB + b[n];
      assert a == a[..n] + [a[n]] && b == b[..n] + [b[n]];
      hide Flatten;
      if wholeA + a[n] == wholeB + b[n] {
        assert (wholeA + a[n])[..|wholeA|] == wholeA && (wholeB + b[n])[..|wholeA|] == wholeB;
        assert (wholeA + a[n])[|wholeA|..] == a[n] && (wholeB + b[n])[|wholeA|..] == b[n];
      }
    }
  }

  ghost predicate Record(pk: Packing, batches: seq<Batch>, runs: seq<seq<L2Block>>) {
    && |batches| == |runs|
    && forall k | 0 <= k < |runs| ::
         && Records(pk, batches[k].coinbase, batches[k], runs[k])
         && forall i | 0 <= i < |runs[k]| :: WellFormed(runs[k][i])
  }

  lemma RecordTxsIff(pk: Packing, batches: seq<Batch>, runs: seq<seq<L2Block>>)
    requires Record(pk, batches, runs)
    ensures Flatten(ReadTxs(batches)) == TxLists(Flatten(runs)) <==> forall k | 0 <= k < |runs| :: CountsFit(runs[k])
  {
    forall k | 0 <= k < |runs|
      ensures ReadTxs(batches)[k] == RunTxs(runs)[k] <==> CountsFit(runs[k])
      ensures |ReadTxs(batches)[k]| == |RunTxs(runs)[k]|
    {
      RecordsRestoreTxs(pk, batches[k].coinbase, batches[k], runs[k]);
      SlicesLength(batches[k].allTxList, batches[k].blockParams);
    }
    FlattenViews(runs);
    FlattenEqual(ReadTxs(batches), RunTxs(runs));
  }

  lemma RecordTimesIff(pk: Packing, batches: seq<Batch>, runs: seq<seq<L2Block>>)
    requires Record(pk, batches, runs) && pk.timestampOverride.None? && pk.timeshiftOverride.None?
    ensures Flatten(ReadTimes(batches)) == Timestamps(Flatten(runs)) <==> forall k | 0 <= k < |runs| :: TimesFit(runs[k])
  {
    forall k | 0 <= k < |runs|
      ensures ReadTimes(batches)[k] == RunTimes(runs)[k] <==> TimesFit(runs[k])
      ensures |ReadTimes(batches)[k]| == |RunTimes(runs)[k]|
    {
      RecordsRestoreTimes(pk, batches[k].coinbase, batches[k], runs[k]);
      TimesLength(batches[k].lastTimestamp, batches[k].blockParams);
    }
    FlattenViews(runs);
    FlattenEqual(ReadTimes(batches), RunTimes(runs));
  }

  /** Reading all batches back gives every block's user transactions, in order, exactly when a u16 counts each
      block's; and gives every block's timestamp exactly when no gap inside a batch is negative or above 255. */
  lemma BatchesRestoreBlocks(pk: Packing, blocks: seq<L2Block>) returns (runs: seq<seq<L2Block>>)
    requires blocks != [] && HaveAnchors(blocks) && pk.timestampOverride.None? && pk.timeshiftOverride.None?
    requires forall i | 0 <= i < |blocks| :: WellFormed(blocks[i])
    ensures Record(pk, RequestFromBlocks(pk, blocks), runs) && Flatten(runs) == blocks
    ensures Flatten(ReadTxs(RequestFromBlocks(pk, blocks))) == TxLists(blocks) <==> CountsFit(blocks)
    ensures Flatten(ReadTimes(RequestFromBlocks(pk, blocks))) == Timestamps(blocks)
            <==> forall k | 0 <= k < |runs| :: TimesFit(runs[k])
  {
    var batches := RequestFromBlocks(pk, blocks);
    runs := BatchesPartitionBlocks(pk, blocks);
    RunsRecord(pk, blocks[0], batches, runs);
    RunsFit(runs);
    hide *;
    RecordTxsIff(pk, batches, runs);
    RecordTimesIff(pk, batches, runs);
  }

  lemma RunsRecord(pk: Packing, first: L2Block, batches: seq<Batch>, runs: seq<seq<L2Block>>)
    requires |batches| == |runs| && forall k | 0 <= k < |runs| :: RecordsOpen(pk, first, batches[k], runs[k])
    requires forall i | 0 <= i < |Flatten(runs)| :: WellFormed(Flatten(runs)[i])
    ensures Record(pk, batches, runs)
  {
    hide Flatten, RecordsBlock, TxLists, WellFormed;
    forall k | 0 <= k < |runs|
      ensures Records(pk, batches[k].coinbase, batches[k], runs[k])
      ensures forall i | 0 <= i < |runs[k]| :: WellFormed(runs[k][i])
    {
      assert RecordsOpen(pk, first, batches[k], runs[k]);
      var at := RunInside(runs, k);
      forall i | 0 <= i < |runs[k]|
        ensures WellFormed(runs[k][i])
      {
        assert runs[k][i] == Flatten(runs)[at + i];
      }
    }
  }

  /** Each run is a contiguous piece of the whole. */
  lemma RunInside<T>(runs: seq<seq<T>>, k: nat) returns (at: nat)
    requires k < |runs|
    ensures at + |runs[k]| <= |Flatten(runs)| && Flatten(runs)[at..at + |runs[k]|] == runs[k]
  {
    assert runs == runs[..k] + ([runs[k]] + runs[k + 1..]);
    FlattenConcat(runs[..k], [runs[k]] + runs[k + 1..]);
    FlattenConcat([runs[k]], runs[k + 1..]);
    assert [runs[k]][..0] == [];
    at := |Flatten(runs[..k])|;
    assert Flatten(runs)[at..at + |runs[k]|] == runs[k];
  }

  /** Every element of the whole is in one of the runs. */
  lemma {:induction false} FlattenIndex<T>(runs: seq<seq<T>>, k: nat) returns (i: nat, j: nat)
    requires k < |Flatten(runs)|
    ensures i < |runs| && j < |runs[i]| && runs[i][j] == Flatten(runs)[k]
  {
    var n := |runs| - 1;
    var before := |Flatten(runs[..n])|;
    if k < before {
      i, j := FlattenIndex(runs[..n], k);
    } else {
      i, j := n, k - before;
    }
  }

  predicate All<T>(s: seq<T>, p: T -> bool) {
    forall k | 0 <= k < |s| :: p(s[k])
  }

  /** A property of all elements of the whole is one of all elements of all runs. */
  lemma AllInRuns<T>(runs: seq<seq<T>>, p: T -> bool)
    ensures All(Flatten(runs), p) <==> forall i | 0 <= i < |runs| :: All(runs[i], p)
  {
    var whole := Flatten(runs);
    hide Flatten;
    if forall i | 0 <= i < |runs| :: All(runs[i], p) {
      forall k | 0 <= k < |whole|
        ensures p(whole[k])
      {
        var i, j := FlattenIndex(runs, k);
        assert All(runs[i], p);
      }
    }
    forall i, j | 0 <= i < |runs| && 0 <= j < |runs[i]| && All(whole, p)
      ensures p(runs[i][j])
    {
      var at := RunInside(runs, i);
      assert runs[i][j] == whole[at + j];
    }
  }

  lemma RunsFit(runs: seq<seq<L2Block>>)
    ensures CountsFit(Flatten(runs)) <==> forall i | 0 <= i < |runs| :: CountsFit(runs[i])
  {
    AllInRuns(runs, CountFits);
    assert forall s: seq<L2Block> :: CountsFit(s) <==> All(s, CountFits);
  }

  ghost predicate ProposedBy(blocks: seq<L2Block>, proposer: Address) {
    forall k | 0 <= k < |blocks| :: blocks[k].beneficiary == proposer
  }

  lemma RunsProposedBy(runs: seq<seq<L2Block>>, proposer: Address)
    ensures ProposedBy(Flatten(runs), proposer) <==> forall i | 0 <= i < |runs| :: ProposedBy(runs[i], proposer)
  {
    var p := (b: L2Block) => b.beneficiary == proposer;
    AllInRuns(runs, p);
    assert forall s: seq<L2Block> :: ProposedBy(s, proposer) <==> All(s, p);
  }

  /** All batches carry the first block's proposer, so reading them restores the proposer of every block exactly
      when the blocks have only one. */
  lemma ProposersRestoredIff(pk: Packing, blocks: seq<L2Block>) returns (runs: seq<seq<L2Block>>)
    requires blocks != [] && HaveAnchors(blocks)
    ensures
      var batches := RequestFromBlocks(pk, blocks);
      && |runs| == |batches| && Flatten(runs) == blocks
      && (forall i | 0 <= i < |batches| :: Records(pk, blocks[0].beneficiary, batches[i], runs[i]))
      && ((forall i | 0 <= i < |batches| :: ProposedBy(runs[i], batches[i].coinbase))
          <==> ProposedBy(blocks, blocks[0].beneficiary))
  {
    runs := BatchesPartitionBlocks(pk, blocks);
    var batches := RequestFromBlocks(pk, blocks);
    hide RequestFromBlocks, RecordsBlock, Runs, Flatten, HaveAnchors, TxLists, Packing.TimestampOf, ProposedBy;
    forall i | 0 <= i < |batches|
      ensures Records(pk, blocks[0].beneficiary, batches[i], runs[i])
      ensures batches[i].coinbase == blocks[0].beneficiary
    {
      assert RecordsOpen(pk, blocks[0], batches[i], runs[i]);
    }
    hide Records, RecordsOpen;
    RunsProposedBy(runs, blocks[0].beneficiary);
  }

  lemma {:induction false} FlattenViews(runs: seq<seq<L2Block>>)
    ensures Flatten(RunTimes(runs)) == Timestamps(Flatten(runs))
    ensures Flatten(RunTxs(runs)) == TxLists(Flatten(runs))
  {
    if runs != [] {
      var n := |runs| - 1;
      FlattenViews(runs[..n]);
      assert RunTimes(runs)[..n] == RunTimes(runs[..n]);
      assert RunTxs(runs)[..n] == RunTxs(runs[..n]);
    }
  }
}
