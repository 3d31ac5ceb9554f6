/** From a sealed block to L1 and back: what is read from the proposals is what was preconfirmed. */
module Derivation {
  import opened GatewayTypes
  import opened BlobLayout
  import opened Batches
  import opened Proposals
  import opened SequencerLoop
  import opened SequencerRuns
  import opened Sealing
  import opened SequencerSteps
  import Resync
  import Runs = SortingRuns
  import Simulation

  /** RLP and zlib: compression loses nothing. */
  datatype Codec = Codec(compress: seq<Order> -> seq<byte>, expand: seq<byte> -> Option<seq<Order>>) {
    ghost predicate Valid() {
      forall txs :: expand(compress(txs)) == Some(txs)
    }
  }

  /** The blocks read from a proposal. */
  datatype Derived = Derived(anchorBlockId: nat, coinbase: Address, times: seq<int>, txs: seq<seq<Order>>)

  /** Reads a blob proposal: the named blobs, the named part of their bytes, then the block parameters. */
  ghost function Derive(codec: Codec, call: Call, sidecar: seq<seq<byte>>): Option<Derived> {
    var p := call.params;
    if p.blobParams.numBlobs > |sidecar| || exists i :: 0 <= i < |sidecar| && |sidecar[i]| != BYTES_PER_BLOB then None
    else
      match DecodeBlobs(sidecar[..p.blobParams.numBlobs])
      case None => None
      case Some(bytes) =>
        var from, to := p.blobParams.byteOffset, p.blobParams.byteOffset + p.blobParams.byteSize;
        if to > |bytes| then None
        else
          match codec.expand(bytes[from..to])
          case None => None
          case Some(txs) =>
            Some(Derived(p.anchorBlockId, p.coinbase, Times(p.lastBlockTimestamp, p.blocks), Slices(txs, p.blocks)))
  }

  function DerivedFrom(request: Batch): Derived {
    Derived(request.anchorBlockId, request.coinbase, Times(request.lastTimestamp, request.blockParams),
            Slices(request.allTxList, request.blockParams))
  }

  /** A blob proposal of `request`, which is what `PrepareBatch` makes of it. */
  ghost predicate Published(codec: Codec, request: Batch, call: Call, sidecar: seq<seq<byte>>) {
    var compressed := codec.compress(request.allTxList);
    && (exists metaHash, proposer ::
          call == Call(Params(request, metaHash, proposer, BlobParams(|sidecar|, 0, |compressed|)), [], request.endBlockNum))
    && (forall i | 0 <= i < |sidecar| :: |sidecar[i]| == BYTES_PER_BLOB)
    && DecodeBlobs(sidecar) == Some(compressed)
  }

  /** Compresses the transactions and encodes them; no result where the size assertion stops the process. */
  method PrepareBatch(codec: Codec, request: Batch, metaHash: nat, proposer: Address)
    returns (out: Option<(Call, seq<seq<byte>>)>)
    ensures out.Some? <==> |codec.compress(request.allTxList)| < (MAX_BLOBS_PER_BLOCK_DENCUN + 1) * MAX_BLOB_DATA_SIZE
    ensures out.Some? ==> Published(codec, request, out.value.0, out.value.1)
    ensures out.Some? && codec.Valid() ==> Derive(codec, out.value.0, out.value.1) == Some(DerivedFrom(request))
  {
    var compressed := codec.compress(request.allTxList);
    hide DecodeBlobs;
    out := BlobProposal(request.(allTxList := []), metaHash, proposer, compressed);
    if out.Some? {
      var (call, sidecar) := out.value;
      assert call == Call(Params(request, metaHash, proposer, BlobParams(|sidecar|, 0, |compressed|)), [], request.endBlockNum);
      if codec.Valid() {
        PublishedDerives(codec, request, call, sidecar);
      }
    }
  }

  lemma PublishedDerives(codec: Codec, request: Batch, call: Call, sidecar: seq<seq<byte>>)
    requires codec.Valid() && Published(codec, request, call, sidecar)
    ensures Derive(codec, call, sidecar) == Some(DerivedFrom(request))
  {
    var compressed := codec.compress(request.allTxList);
    assert sidecar[..|sidecar|] == sidecar && compressed[0..|compressed|] == compressed;
    hide DecodeBlobs, Times, Slices;
  }

  // ---- the clock ----

  /** The clock reading at the last start of a block. */
  function LastStart(passes: seq<Pass>): nat {
    if passes == [] then 0
    else
      match passes[|passes| - 1].action
      case Start(now) => now
      case _ => LastStart(passes[..|passes| - 1])
  }

  /** Blocks start in the order of their clock readings. */
  predicate ClockForward(passes: seq<Pass>) {
    passes == []
    || (&& ClockForward(passes[..|passes| - 1])
        && LastStart(passes[..|passes| - 1]) <= LastStart(passes))
  }

  ghost predicate Ordered(cfg: Config, w: World, lastStart: nat) {
    && (forall i, j | 0 <= i < j < |w.sealed| :: w.sealed[i].block.timestamp <= w.sealed[j].block.timestamp)
    && (forall i | 0 <= i < |w.sealed| :: w.sealed[i].block.timestamp <= lastStart + cfg.targetBlockTime)
    && (w.s.mode.Sorting? ==> w.s.mode.building.timestamp == lastStart + cfg.targetBlockTime)
  }

  lemma PassKeepsOrder(cfg: Config, w: World, lastStart: nat, p: Pass)
    requires Ordered(cfg, w, lastStart) && Allowed(cfg, Tick(cfg, w.s, p.observed), p.observed, p.action)
    requires p.action.Start? ==> lastStart <= p.action.now
    ensures
      var w' := Act(cfg, Tick(cfg, w.s, p.observed), w.sealed, p.observed, p.action);
      Ordered(cfg, w', if p.action.Start? then p.action.now else lastStart)
  {
  }

  lemma {:induction false} SealedInOrder(cfg: Config, passes: seq<Pass>)
    requires Run(cfg, passes).Some? && ClockForward(passes)
    ensures Ordered(cfg, Run(cfg, passes).value, LastStart(passes))
  {
    if passes != [] {
      var n := |passes| - 1;
      SealedInOrder(cfg, passes[..n]);
      var w, p := Run(cfg, passes[..n]).value, passes[n];
      assert LastStart(passes) == if p.action.Start? then p.action.now else LastStart(passes[..n]);
      hide Ordered, Tick, Act, Allowed;
      PassKeepsOrder(cfg, w, LastStart(passes[..n]), p);
    }
  }

  // ---- what was preconfirmed is what is derived ----

  /** A run of sealed blocks as L1 should see it. */
  function DerivedRun(cfg: Config, run: seq<Sealed>): Derived
    requires run != []
  {
    Derived(run[0].anchorId, cfg.coinbase, Timestamps(Blocks(run)), TxLists(Blocks(run)))
  }

  ghost predicate ClockOrder(run: seq<Sealed>) {
    forall i, j | 0 <= i < j < |run| :: run[i].block.timestamp <= run[j].block.timestamp
  }

  /** Every publication of the batch derives the run exactly when a u16 counts each block's transactions and the
      clock did not run backwards between its blocks. */
  ghost predicate DerivesRun(codec: Codec, cfg: Config, batch: Batch, run: seq<Sealed>) {
    && run != []
    && forall call, sidecar | Published(codec, batch, call, sidecar) ::
         Derive(codec, call, sidecar) == Some(DerivedRun(cfg, run)) <==> CountsFit(Blocks(run)) && ClockOrder(run)
  }

  lemma {:induction false} StepsOrder(run: seq<Sealed>)
    requires forall i | 0 < i < |run| :: run[i - 1].block.timestamp <= run[i].block.timestamp
    ensures ClockOrder(run)
  {
    if run != [] {
      var n := |run| - 1;
      StepsOrder(run[..n]);
      forall i | 0 <= i < n
        ensures run[i].block.timestamp <= run[n].block.timestamp
      {
        assert run[..n][i].block.timestamp <= run[..n][n - 1].block.timestamp;
      }
      forall i, j | 0 <= i < j < n
        ensures run[i].block.timestamp <= run[j].block.timestamp
      {
        assert run[..n][i].block.timestamp <= run[..n][j].block.timestamp;
      }
    }
  }

  lemma BatchDerivesRun(codec: Codec, cfg: Config, batch: Batch, run: seq<Sealed>)
    requires codec.Valid() && BatchOf(cfg, batch, run)
    ensures DerivesRun(codec, cfg, batch, run)
  {
    BatchReadsBack(cfg, batch, run);
    assert batch.coinbase == cfg.coinbase && batch.anchorBlockId == run[0].anchorId;
    if forall i | 0 < i < |run| :: run[i - 1].block.timestamp <= run[i].block.timestamp {
      StepsOrder(run);
    }
    hide BatchOf, Slices, Times, Timestamps, TxLists, Blocks, Derive, Published, CountsFit;
    assert DerivedFrom(batch) == DerivedRun(cfg, run) <==> CountsFit(Blocks(run)) && ClockOrder(run);
    forall call, sidecar | Published(codec, batch, call, sidecar)
      ensures Derive(codec, call, sidecar) == Some(DerivedRun(cfg, run))
              <==> CountsFit(Blocks(run)) && ClockOrder(run)
    {
      PublishedDerives(codec, batch, call, sidecar);
    }
  }

  /** In every run of the sequencer that seals the sorted orders, failed seals included: the batches divide the
      sealed blocks, in order and each once, and reading any publication of a batch gives its blocks' anchor,
      coinbase, times and transactions exactly when the counts fit and the clock moved forward over them; if it
      did at all starts, then it did over every batch. */
  lemma PreconfirmedIsDerived(codec: Codec, cfg: Config, passes: seq<Pass>) returns (runs: seq<seq<Sealed>>)
    requires codec.Valid() && Run(cfg, passes).Some? && SealsOrders(passes)
    ensures
      var w := Run(cfg, passes).value;
      && Flatten(runs) == w.sealed
      && |runs| == |AllBatches(w.s)|
      && (forall k | 0 <= k < |runs| :: DerivesRun(codec, cfg, AllBatches(w.s)[k], runs[k]))
      && (ClockForward(passes) ==> forall k | 0 <= k < |runs| :: ClockOrder(runs[k]))
  {
    runs := EverySealedBlockOnce(cfg, passes);
    var w := Run(cfg, passes).value;
    if ClockForward(passes) {
      SealedInOrder(cfg, passes);
    }
    hide Run, Flatten, BatchOf, DerivesRun;
    forall k | 0 <= k < |runs|
      ensures DerivesRun(codec, cfg, AllBatches(w.s)[k], runs[k])
      ensures ClockForward(passes) ==> ClockOrder(runs[k])
    {
      BatchDerivesRun(codec, cfg, AllBatches(w.s)[k], runs[k]);
      var at := RunInside(runs, k);
      forall i, j | 0 <= i < j < |runs[k]| && ClockForward(passes)
        ensures runs[k][i].block.timestamp <= runs[k][j].block.timestamp
      {
        assert runs[k][i] == w.sealed[at + i] && runs[k][j] == w.sealed[at + j];
      }
    }
  }

  // ---- the calls of sent batches ----

  /** The call of a batch decodes to its first block, last block and anchor exactly when it holds as many blocks
      as there are numbers from the first to the last. */
  lemma SentBatchDecodes(abi: Abi, cfg: Config, batch: Batch, run: seq<Sealed>, call: Call)
    requires abi.Valid() && BatchOf(cfg, batch, run) && ProposalOf(call, batch)
    requires run[0].block.number + |run| <= U64 && run[|run| - 1].block.number < U64
    ensures
      var first, last := run[0].block.number, run[|run| - 1].block.number;
      DecodeProposal(abi, abi.encode(call)) == Some((first, last, run[0].anchorId)) <==> |run| == last - first + 1
  {
    var blocks := Blocks(run);
    assert blocks[0] == run[0].block && blocks[|run| - 1] == run[|run| - 1].block;
    assert Records(PackingOn(batch.anchorBlockId), cfg.coinbase, batch, blocks);
    assert batch.startBlockNum == run[0].block.number && batch.endBlockNum == run[|run| - 1].block.number;
    assert |batch.blockParams| == |run| && batch.anchorBlockId == run[0].anchorId;
    hide BatchOf, Records, Blocks;
  }

  /** So it does for every batch of a run whose sealed blocks are numbered one after the other. */
  lemma SentBatchesDecode(abi: Abi, cfg: Config, passes: seq<Pass>) returns (runs: seq<seq<Sealed>>)
    requires abi.Valid() && Run(cfg, passes).Some? && SealsOrders(passes)
    requires
      var sealed := Run(cfg, passes).value.sealed;
      forall i | 0 <= i < |sealed| :: sealed[i].block.number == sealed[0].block.number + i < U64
    ensures
      var w := Run(cfg, passes).value;
      && Flatten(runs) == w.sealed && |runs| == |AllBatches(w.s)|
      && forall k, call | 0 <= k < |runs| && ProposalOf(call, AllBatches(w.s)[k]) ::
           && runs[k] != []
           && DecodeProposal(abi, abi.encode(call))
              == Some((runs[k][0].block.number, runs[k][|runs[k]| - 1].block.number, runs[k][0].anchorId))
  {
    runs := EverySealedBlockOnce(cfg, passes);
    var w := Run(cfg, passes).value;
    hide Run, Flatten, DecodeProposal, ProposalOf;
    forall k, call | 0 <= k < |runs| && ProposalOf(call, AllBatches(w.s)[k])
      ensures runs[k] != []
      ensures DecodeProposal(abi, abi.encode(call))
              == Some((runs[k][0].block.number, runs[k][|runs[k]| - 1].block.number, runs[k][0].anchorId))
    {
      assert BatchOf(cfg, AllBatches(w.s)[k], runs[k]);
      var at := RunInside(runs, k);
      var n := |runs[k]| - 1;
      assert runs[k][0] == w.sealed[at] && runs[k][n] == w.sealed[at + n];
      hide BatchOf;
      SentBatchDecodes(abi, cfg, AllBatches(w.s)[k], runs[k], call);
    }
  }

  // ---- rebuilt batches ----

  /** A batch rebuilt from chain blocks derives those blocks on their own anchor, and under the proposer of that
      anchor's first block, exactly when their counts and their gaps fit. */
  lemma ReproposedIsDerived(codec: Codec, anchorOf: Resync.AnchorOf, pk: Packing, groups: map<nat, seq<L2Block>>,
                            batch: Batch, run: seq<L2Block>, call: Call, sidecar: seq<seq<byte>>)
    requires codec.Valid() && pk.timestampOverride.None? && pk.timeshiftOverride.None?
    requires run != [] && Resync.Reproposes(anchorOf, pk, groups, batch, run)
    requires Published(codec, batch, call, sidecar)
    requires forall i | 0 <= i < |run| :: WellFormed(run[i])
    ensures
      var id := Resync.AnchorId(anchorOf, run[0]);
      && id in groups && groups[id] != []
      && (Derive(codec, call, sidecar)
          == Some(Derived(id, groups[id][0].beneficiary, Timestamps(run), TxLists(run)))
          <==> CountsFit(run) && TimesFit(run))
  {
    var pk' := pk.(anchorBlockId := batch.anchorBlockId);
    assert Resync.AnchorId(anchorOf, run[0]) == batch.anchorBlockId;
    hide Records, Times, Slices, Timestamps, TxLists, Derive, Published, WellFormed, Resync.AnchorId;
    hide CountsFit, TimesFit;
    RecordsRestoreTxs(pk', batch.coinbase, batch, run);
    RecordsRestoreTimes(pk', batch.coinbase, batch, run);
    PublishedDerives(codec, batch, call, sidecar);
  }

  ghost predicate RebuiltDerives(codec: Codec, anchorOf: Resync.AnchorOf, groups: map<nat, seq<L2Block>>, batch: Batch,
                                 run: seq<L2Block>)
  {
    forall call, sidecar | run != [] && Published(codec, batch, call, sidecar) ::
      var id := Resync.AnchorId(anchorOf, run[0]);
      && id in groups && groups[id] != []
      && (Derive(codec, call, sidecar)
          == Some(Derived(id, groups[id][0].beneficiary, Timestamps(run), TxLists(run)))
          <==> CountsFit(run) && TimesFit(run))
  }

  /** Fetched, grouped, reproposed and published, the blocks are divided in order and each once, and every
      batch derives its own. */
  lemma ResyncedIsDerived(codec: Codec, anchorOf: Resync.AnchorOf, pk: Packing, blocks: seq<L2Block>,
                          groups: map<nat, seq<L2Block>>)
    returns (runs: seq<seq<L2Block>>)
    requires codec.Valid() && pk.timestampOverride.None? && pk.timeshiftOverride.None?
    requires Resync.AllAnchored(anchorOf, blocks) && Resync.GroupsOf(anchorOf, blocks, groups)
    requires Resync.Nondecreasing(anchorOf, blocks) && forall i | 0 <= i < |blocks| :: WellFormed(blocks[i])
    ensures Resync.GroupsHaveAnchors(groups)
    ensures
      var requests := Resync.Requests(pk, groups);
      && Flatten(runs) == blocks && |runs| == |requests|
      && forall k | 0 <= k < |runs| :: RebuiltDerives(codec, anchorOf, groups, requests[k], runs[k])
  {
    runs := Resync.FetchedReproposed(anchorOf, pk, blocks, groups);
    var requests := Resync.Requests(pk, groups);
    forall k | 0 <= k < |runs|
      ensures RebuiltDerives(codec, anchorOf, groups, requests[k], runs[k])
    {
      assert Resync.Reproposes(anchorOf, pk, groups, requests[k], runs[k]);
      var at := RunInside(runs, k);
      forall i | 0 <= i < |runs[k]|
        ensures WellFormed(runs[k][i])
      {
        assert runs[k][i] == blocks[at + i];
      }
      hide *;
      RebuiltRun(codec, anchorOf, pk, groups, requests[k], runs[k]);
    }
  }

  lemma RebuiltRun(codec: Codec, anchorOf: Resync.AnchorOf, pk: Packing, groups: map<nat, seq<L2Block>>, batch: Batch,
                   run: seq<L2Block>)
    requires codec.Valid() && pk.timestampOverride.None? && pk.timeshiftOverride.None?
    requires Resync.Reproposes(anchorOf, pk, groups, batch, run) && forall i | 0 <= i < |run| :: WellFormed(run[i])
    ensures RebuiltDerives(codec, anchorOf, groups, batch, run)
  {
    hide Resync.Reproposes, Resync.AnchorId, WellFormed, Derive, Published, Timestamps, TxLists, CountsFit, TimesFit;
    forall call, sidecar | run != [] && Published(codec, batch, call, sidecar)
      ensures
        var id := Resync.AnchorId(anchorOf, run[0]);
        && id in groups && groups[id] != []
        && (Derive(codec, call, sidecar)
            == Some(Derived(id, groups[id][0].beneficiary, Timestamps(run), TxLists(run)))
            <==> CountsFit(run) && TimesFit(run))
    {
      ReproposedIsDerived(codec, anchorOf, pk, groups, batch, run, call, sidecar);
    }
  }

  /** Every block's anchor call names the anchor it was sealed on. */
  ghost predicate CallsNameAnchors(anchorOf: Resync.AnchorOf, sealed: seq<Sealed>) {
    forall i | 0 <= i < |sealed| :: anchorOf(sealed[i].block) == Some(sealed[i].anchorId)
  }

  /** What the sequencer sealed, in any run and however many batches were lost, resync puts in its order again:
      grouped by anchor and read back by increasing anchor, the blocks are those sealed. */
  lemma SealedRegroups(cfg: Config, passes: seq<Pass>, anchorOf: Resync.AnchorOf, groups: map<nat, seq<L2Block>>)
    requires Run(cfg, passes).Some? && CallsNameAnchors(anchorOf, Run(cfg, passes).value.sealed)
    requires Resync.GroupsOf(anchorOf, Blocks(Run(cfg, passes).value.sealed), groups)
    ensures Resync.InOrder(groups) == Blocks(Run(cfg, passes).value.sealed)
  {
    AnchorsNeverDecrease(cfg, passes);
    var sealed := Run(cfg, passes).value.sealed;
    forall i | 0 <= i < |sealed|
      ensures Resync.AnchorId(anchorOf, Blocks(sealed)[i]) == sealed[i].anchorId
    {
      assert anchorOf(sealed[i].block) == Some(sealed[i].anchorId);
    }
    hide Run, Resync.AnchorId, Resync.GroupsOf, Resync.InOrder;
    Resync.RegroupingIff(anchorOf, Blocks(sealed), groups);
  }

  // ---- from sorting to the block ----

  /** A block that holds what a sorting run sorted is sealed with exactly those orders, and executing its user
      transactions one by one from the anchor state gives the state it was sealed from. */
  lemma SealedBlockReplays(setting: Runs.Setting, sys: Runs.System, events: seq<Runs.Event>, b: L2Block)
    requires Runs.Start(setting, sys)
    requires HoldsOrders(b, Runs.Run(setting, sys, events).sort.orders)
    ensures
      var st := Runs.Run(setting, sys, events).sort;
      && UserTxs(b.txs) == st.orders && |b.txs| == |st.orders| + 1
      && var t := Simulation.Replay(setting.sim, setting.anchor, setting.gasLimit, UserTxs(b.txs));
         t.Some? && t.value.state == st.stateId && t.value.size == st.uncompressedSize
  {
    HeldOrders(b, Runs.Run(setting, sys, events).sort.orders);
    Runs.RunsAreSequential(setting, sys, events);
  }
}
