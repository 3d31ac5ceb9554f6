/** The sequencer's loop: anchors, the pending batch, and what is sent to the proposer. */
module SequencerLoop {
  import opened GatewayTypes
  import opened Batches
  import opened Sealing


  datatype Config = Config(coinbase: Address, targetBlockTime: nat, anchorBatchLag: nat, batchTargetSize: nat)

  datatype Anchor = Anchor(blockId: nat, createdAt: nat)

  /** The parts of a block under construction that outlive sorting. */
  datatype Building = Building(anchor: Anchor, timestamp: nat, shouldSeal: bool)

  datatype Mode = Sync | Sorting(building: Building)

  datatype Sequencer = Sequencer(mode: Mode, anchor: Option<Anchor>, request: Option<Batch>, sent: seq<Batch>)

  const START: Sequencer := Sequencer(Sync, None, None, [])

  // ---- operations ----

  /** With `stateCheck`, a batch is not broken while a block is sorted: the block is sealed first. */
  function SendBatch(s: Sequencer, stateCheck: bool): Sequencer {
    if stateCheck && s.mode.Sorting? then s.(mode := Sorting(s.mode.building.(shouldSeal := true)))
    else
      match s.request
      case None => s
      case Some(batch) => s.(request := None, sent := s.sent + [batch])
  }

  predicate NeedsAnchorRefresh(s: Sequencer, anchor: Anchor) {
    s.anchor.None? || s.anchor.value.blockId != anchor.blockId
  }

  function UpdateAnchor(s: Sequencer, safeL1: nat, now: nat): Sequencer {
    SendBatch(s.(anchor := Some(Anchor(safeL1, now))), true)
  }

  function CompressedEst(s: Sequencer): nat {
    if s.request.Some? then s.request.value.compressedEst else 0
  }

  /** The anchor's age is computed in u64 arithmetic. */
  function MaybeRefreshAnchor(cfg: Config, s: Sequencer, safeL1: Option<nat>, now: nat): Sequencer {
    if safeL1.None? then s
    else if s.anchor.None? then UpdateAnchor(s, safeL1.value, now)
    else if safeL1.value <= s.anchor.value.blockId then s
    else if (now - s.anchor.value.createdAt) % U64 > cfg.anchorBatchLag * 12 then UpdateAnchor(s, safeL1.value, now)
    else if CompressedEst(s) > cfg.batchTargetSize then UpdateAnchor(s, safeL1.value, now)
    else s
  }

  predicate TimeShiftTooLong(s: Sequencer, now: nat) {
    s.request.Some? && SaturatingSub(now, s.request.value.lastTimestamp) > 230
  }

  /** What one pass of the loop observes before it acts. */
  datatype Observed = Observed(now: nat, safeL1: Option<nat>, canSequence: bool, clearProposal: bool)

  function Tick(cfg: Config, s: Sequencer, o: Observed): Sequencer {
    var s1 := if o.canSequence then MaybeRefreshAnchor(cfg, s, o.safeL1, o.now) else s;
    var s2 := if o.clearProposal then SendBatch(s1, true) else s1;
    if TimeShiftTooLong(s2, o.now) then SendBatch(s2, true) else s2
  }

  /** A block starts on the current anchor, unless there is none. */
  function AnchorBlock(cfg: Config, s: Sequencer, now: nat): Sequencer {
    match s.anchor
    case None => s
    case Some(anchor) => s.(mode := Sorting(Building(anchor, now + cfg.targetBlockTime, false)))
  }

  function Discard(s: Sequencer): Sequencer
    requires s.mode.Sorting?
  {
    var anchor, s1 := s.mode.building.anchor, s.(mode := Sync);
    if NeedsAnchorRefresh(s1, anchor) then SendBatch(s1, false) else s1
  }

  /** A block whose publication failed is given up; a pending batch stays. */
  function FailSeal(s: Sequencer): Sequencer {
    s.(mode := Sync)
  }

  datatype Next = Running(s: Sequencer) | Crashed(why: Outcome)

  function SealBlock(cfg: Config, s: Sequencer, b: L2Block, orders: seq<Order>, estimate: nat): Next
    requires s.mode.Sorting? && |b.txs| > 0
  {
    var anchor := s.mode.building.anchor;
    match Seal(s.request, anchor.blockId, cfg.coinbase, b, orders, estimate)
    case Updated(batch) =>
      var s1 := s.(mode := Sync, request := Some(batch));
      Running(if NeedsAnchorRefresh(s1, anchor) then SendBatch(s1, false) else s1)
    case panic => Crashed(panic)
  }

  /** The fields of the sequencer that decide about batches. */
  class Gateway {
    const cfg: Config
    var mode: Mode
    var anchor: Option<Anchor>
    var proposerRequest: Option<Batch>
    var proposerTx: seq<Batch>

    function View(): Sequencer
      reads this
    {
      Sequencer(mode, anchor, proposerRequest, proposerTx)
    }

    constructor (cfg: Config)
      ensures this.cfg == cfg && View() == Sequencer(Sync, None, None, [])
    {
      this.cfg := cfg;
      mode, anchor, proposerRequest, proposerTx := Sync, None, None, [];
    }

    method SendBatchToProposer(stateCheck: bool)
      modifies `mode, `proposerRequest, `proposerTx
      ensures View() == SendBatch(old(View()), stateCheck)
    {
      if stateCheck && mode.Sorting? {
        mode := Sorting(mode.building.(shouldSeal := true));
        return;
      }
      if proposerRequest.Some? {
        proposerTx := proposerTx + [proposerRequest.value];
        proposerRequest := None;
      }
    }

    method RefreshAnchorIfNeeded(safeL1: Option<nat>, now: nat)
      modifies this
      ensures View() == MaybeRefreshAnchor(cfg, old(View()), safeL1, now)
    {
      if safeL1.None? {
        return;
      }
      if anchor.None? {
        anchor := Some(Anchor(safeL1.value, now));
        SendBatchToProposer(true);
        return;
      }
      if safeL1.value <= anchor.value.blockId {
        return;
      }
      var isAnchorOld := (now - anchor.value.createdAt) % U64 > cfg.anchorBatchLag * 12;
      var batchSize := if proposerRequest.Some? then proposerRequest.value.compressedEst else 0;
      if isAnchorOld || batchSize > cfg.batchTargetSize {
        anchor := Some(Anchor(safeL1.value, now));
        SendBatchToProposer(true);
      }
    }

    method DoTick(o: Observed)
      modifies this
      ensures View() == Tick(cfg, old(View()), o)
    {
      if o.canSequence {
        RefreshAnchorIfNeeded(o.safeL1, o.now);
      }
      if o.clearProposal {
        SendBatchToProposer(true);
      }
      if proposerRequest.Some? && SaturatingSub(o.now, proposerRequest.value.lastTimestamp) > 230 {
        SendBatchToProposer(true);
      }
    }

    method StartBlock(now: nat)
      modifies `mode
      ensures View() == AnchorBlock(cfg, old(View()), now)
    {
      if anchor.Some? {
        mode := Sorting(Building(anchor.value, now + cfg.targetBlockTime, false));
      }
    }

    method DiscardBlock()
      requires mode.Sorting?
      modifies this
      ensures View() == Discard(old(View()))
    {
      var used := mode.building.anchor;
      mode := Sync;
      if anchor.None? || anchor.value.blockId != used.blockId {
        SendBatchToProposer(false);
      }
    }

    /** Adds the sealed block to the pending batch in place; false where the process stops. */
    method FinishBlock(b: L2Block, orders: seq<Order>, estimate: nat) returns (ok: bool)
      requires mode.Sorting? && |b.txs| > 0
      modifies this
      ensures ok <==> SealBlock(cfg, old(View()), b, orders, estimate).Running?
      ensures ok ==> View() == SealBlock(cfg, old(View()), b, orders, estimate).s
    {
      var used := mode.building.anchor;
      mode := Sync;
      var isFirstBlock := proposerRequest.None?;
      var request := if isFirstBlock then EMPTY_BATCH else proposerRequest.value;
      var timeShift := 0;
      if isFirstBlock {
        request := request.(anchorBlockId := used.blockId, startBlockNum := b.number, coinbase := cfg.coinbase);
      } else {
        timeShift := SaturatingSub(b.timestamp, request.lastTimestamp);
        if request.anchorBlockId != used.blockId || timeShift > 255 {
          return false;
        }
      }
      request := request.(endBlockNum := b.number, lastTimestamp := b.timestamp);
      request := request.(blockParams := request.blockParams + [BlockParams((|b.txs| - 1) % 0x1_0000, timeShift)]);
      if |b.txs| != |orders| + 1 {
        return false;
      }
      request := request.(allTxList := request.allTxList + orders, compressedEst := request.compressedEst + estimate);
      proposerRequest := Some(request);
      if anchor.None? || anchor.value.blockId != used.blockId {
        SendBatchToProposer(false);
      }
      return true;
    }
  }
}
