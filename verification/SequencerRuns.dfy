/** What every run of the sequencer's loop keeps: one anchor per batch, each sealed block in exactly one
    batch, and time shifts that fit a u8. */
module SequencerRuns {
  import opened GatewayTypes
  import opened Batches
  import opened Sealing
  import opened SequencerLoop

  /** What a pass of the loop does after its tick. A lost block is one whose publication failed. */
  datatype Action =
    | Stay
    | Start(now: nat)
    | DropBlock
    | FinishBlock(block: L2Block, orders: seq<Order>, estimate: nat)
    | LoseBlock

  datatype Pass = Pass(observed: Observed, action: Action)

  datatype Sealed = Sealed(block: L2Block, anchorId: nat, estimate: nat)

  /** The sequencer, every block it sealed so far, and the failed assertion if there was one. */
  datatype World = World(s: Sequencer, sealed: seq<Sealed>, crash: Option<Outcome>)

  /** A block starts only below the size target; once sealing is due the block is not sorted on; a sealed
      block has an anchor transaction and the time it was started for, and comes with the sorted orders. */
  ghost predicate Allowed(cfg: Config, s: Sequencer, o: Observed, a: Action) {
    match a
    case Stay => s.mode.Sorting? ==> !s.mode.building.shouldSeal
    case Start(_) => s.mode.Sync? && o.canSequence && CompressedEst(s) < cfg.batchTargetSize
    case DropBlock => s.mode.Sorting?
    case LoseBlock => s.mode.Sorting?
    case FinishBlock(b, _, _) => s.mode.Sorting? && |b.txs| > 0 && b.timestamp == s.mode.building.timestamp
  }

  ghost function Act(cfg: Config, s: Sequencer, sealed: seq<Sealed>, o: Observed, a: Action): World
    requires Allowed(cfg, s, o, a)
  {
    match a
    case Stay => World(s, sealed, None)
    case Start(now) => World(AnchorBlock(cfg, s, now), sealed, None)
    case DropBlock => World(Discard(s), sealed, None)
    case LoseBlock => World(FailSeal(s), sealed, None)
    case FinishBlock(b, orders, estimate) =>
      match SealBlock(cfg, s, b, orders, estimate)
      case Crashed(why) => World(s, sealed, Some(why))
      case Running(s') => World(s', sealed + [Sealed(b, s.mode.building.anchor.blockId, estimate)], None)
  }

  /** The world after some passes, unless one of them was not possible. */
  ghost function Run(cfg: Config, passes: seq<Pass>): Option<World> {
    if passes == [] then Some(World(SequencerLoop.START, [], None))
    else
      var p := passes[|passes| - 1];
      match Run(cfg, passes[..|passes| - 1])
      case None => None
      case Some(w) =>
        var s := Tick(cfg, w.s, p.observed);
        if w.crash.None? && Allowed(cfg, s, p.observed, p.action) then Some(Act(cfg, s, w.sealed, p.observed, p.action))
        else None
  }

  /** The hypothesis on sealing: every sealed block holds the sorted orders. */
  ghost predicate SealsOrders(passes: seq<Pass>) {
    forall i | 0 <= i < |passes| && passes[i].action.FinishBlock? ::
      HoldsOrders(passes[i].action.block, passes[i].action.orders)
  }

  // ---- one anchor per batch ----

  /** The pending batch is on the anchor of the block being built, or else on the current anchor. */
  ghost predicate OneAnchor(s: Sequencer) {
    s.request.Some? ==>
      match s.mode
      case Sync => s.anchor.Some? && s.anchor.value.blockId == s.request.value.anchorBlockId
      case Sorting(b) => b.anchor.blockId == s.request.value.anchorBlockId
  }

  /** The block being built is lost while its batch waits for it to leave an outdated anchor. */
  predicate Strands(s: Sequencer) {
    s.mode.Sorting? && s.request.Some? && NeedsAnchorRefresh(s, s.mode.building.anchor)
  }

  lemma TickKeepsAnchor(cfg: Config, s: Sequencer, o: Observed)
    requires OneAnchor(s)
    ensures OneAnchor(Tick(cfg, s, o))
  {
  }

  /** Losing a block keeps the invariant exactly when no batch is stranded on the old anchor; discarding
      one always keeps it. */
  lemma LosingKeepsIff(s: Sequencer)
    requires OneAnchor(s) && s.mode.Sorting?
    ensures OneAnchor(FailSeal(s)) <==> !Strands(s)
    ensures OneAnchor(Discard(s))
  {
  }

  lemma ActKeepsAnchor(cfg: Config, s: Sequencer, sealed: seq<Sealed>, o: Observed, a: Action)
    requires OneAnchor(s) && Allowed(cfg, s, o, a)
    requires a.LoseBlock? ==> !Strands(s)
    ensures
      var w := Act(cfg, s, sealed, o, a);
      w.crash != Some(AnchorMismatch) && (w.crash.None? ==> OneAnchor(w.s))
  {
    if s.mode.Sorting? {
      LosingKeepsIff(s);
    }
  }

  ghost predicate NoneStranded(cfg: Config, passes: seq<Pass>) {
    forall i | 0 <= i < |passes| && passes[i].action.LoseBlock? ::
      Run(cfg, passes[..i]).Some? && !Strands(Tick(cfg, Run(cfg, passes[..i]).value.s, passes[i].observed))
  }

  lemma NoneStrandedPrefix(cfg: Config, passes: seq<Pass>)
    requires passes != [] && NoneStranded(cfg, passes)
    ensures NoneStranded(cfg, passes[..|passes| - 1])
  {
    var n := |passes| - 1;
    forall i | 0 <= i < n && passes[..n][i].action.LoseBlock?
      ensures passes[..n][..i] == passes[..i] && passes[i].action.LoseBlock?
    {
    }
  }

  /** In every run that loses no stranding block, the pending batch has one anchor and the assertion on it
      never fails. */
  lemma {:induction false} BatchesKeepTheirAnchor(cfg: Config, passes: seq<Pass>)
    requires Run(cfg, passes).Some? && NoneStranded(cfg, passes)
    ensures
      var w := Run(cfg, passes).value;
      w.crash != Some(AnchorMismatch) && (w.crash.None? ==> OneAnchor(w.s))
  {
    if passes != [] {
      var n := |passes| - 1;
      NoneStrandedPrefix(cfg, passes);
      BatchesKeepTheirAnchor(cfg, passes[..n]);
      var w, p := Run(cfg, passes[..n]).value, passes[n];
      var s := Tick(cfg, w.s, p.observed);
      hide Tick, Act, OneAnchor, Strands, Allowed;
      TickKeepsAnchor(cfg, w.s, p.observed);
      ActKeepsAnchor(cfg, s, w.sealed, p.observed, p.action);
    }
  }

  // ---- batches leave in time ----

  /** A block being built on an outdated anchor is due to be sealed. */
  ghost predicate OutdatedSeals(s: Sequencer) {
    s.mode.Sorting? && NeedsAnchorRefresh(s, s.mode.building.anchor) ==> s.mode.building.shouldSeal
  }

  lemma PassKeepsOutdated(cfg: Config, s: Sequencer, sealed: seq<Sealed>, p: Pass)
    requires OutdatedSeals(s) && Allowed(cfg, Tick(cfg, s, p.observed), p.observed, p.action)
    ensures OutdatedSeals(Act(cfg, Tick(cfg, s, p.observed), sealed, p.observed, p.action).s)
  {
    hide Seal;
  }

  /** In every run, once the anchor is refreshed no further pass sorts on a block of the old one. */
  lemma {:induction false} OutdatedBlocksSeal(cfg: Config, passes: seq<Pass>)
    requires Run(cfg, passes).Some?
    ensures OutdatedSeals(Run(cfg, passes).value.s)
  {
    if passes != [] {
      var n := |passes| - 1;
      OutdatedBlocksSeal(cfg, passes[..n]);
      var w, p := Run(cfg, passes[..n]).value, passes[n];
      PassKeepsOutdated(cfg, w.s, w.sealed, p);
      hide Tick, Act, OutdatedSeals, Allowed;
    }
  }

  /** A batch leaves with the last block of its anchor, which closes it, or when that block is discarded. */
  lemma OutdatedBatchesLeave(cfg: Config, s: Sequencer, b: L2Block, orders: seq<Order>, estimate: nat)
    requires s.mode.Sorting? && NeedsAnchorRefresh(s, s.mode.building.anchor) && |b.txs| > 0
    ensures Discard(s).request.None? && Discard(s).sent == AllBatches(s)
    ensures SealBlock(cfg, s, b, orders, estimate).Running? ==>
      var s' := SealBlock(cfg, s, b, orders, estimate).s;
      && s'.request.None? && |s'.sent| == |s.sent| + 1
      && s'.sent[..|s.sent|] == s.sent
      && s'.sent[|s.sent|].endBlockNum == b.number
      && s'.sent[|s.sent|].allTxList
         == (if s.request.Some? then s.request.value.allTxList else []) + orders
  {
  }

  /** After a tick that must clear the proposal or finds the batch too old, no batch is pending, or the
      block being built is due to be sealed; and between blocks no pending batch is
      over 230 seconds old. */
  lemma TickFlushes(cfg: Config, s: Sequencer, o: Observed)
    ensures
      var s' := Tick(cfg, s, o);
      && (o.clearProposal || TimeShiftTooLong(s, o.now) ==>
            if s.mode.Sorting? then s'.mode.Sorting? && s'.mode.building.shouldSeal else s'.request.None?)
      && (s'.mode.Sync? && s'.request.Some? ==> o.now <= s'.request.value.lastTimestamp + 230)
  {
  }

  // ---- every sealed block in exactly one batch ----

  function Blocks(run: seq<Sealed>): seq<L2Block> {
    seq(|run|, i requires 0 <= i < |run| => run[i].block)
  }

  function Estimates(run: seq<Sealed>): nat {
    if run == [] then 0 else Estimates(run[..|run| - 1]) + run[|run| - 1].estimate
  }

  function PackingOn(anchorId: nat): Packing {
    Packing(anchorId, None, None, 0, 0, (_: seq<Order>) => 0)
  }

  /** A batch records a run of sealed blocks, all on its anchor and none over 255 seconds after the one
      before, and was below the size target when its last block was started. */
  ghost predicate BatchOf(cfg: Config, batch: Batch, run: seq<Sealed>) {
    && run != []
    && Records(PackingOn(batch.anchorBlockId), cfg.coinbase, batch, Blocks(run))
    && (forall i | 0 <= i < |run| :: run[i].anchorId == batch.anchorBlockId && WellFormed(run[i].block))
    && (forall i | 0 < i < |run| :: run[i].block.timestamp <= run[i - 1].block.timestamp + 255)
    && batch.compressedEst == Estimates(run)
    && Estimates(run[..|run| - 1]) < cfg.batchTargetSize
  }

  function AllBatches(s: Sequencer): seq<Batch> {
    s.sent + if s.request.Some? then [s.request.value] else []
  }

  ghost predicate Match(cfg: Config, batches: seq<Batch>, runs: seq<seq<Sealed>>) {
    && |runs| == |batches|
    && forall i | 0 <= i < |runs| :: BatchOf(cfg, batches[i], runs[i])
  }

  ghost predicate Ledger(cfg: Config, s: Sequencer, sealed: seq<Sealed>, runs: seq<seq<Sealed>>) {
    Flatten(runs) == sealed && Match(cfg, AllBatches(s), runs)
  }

  /** While a block is built the pending batch stays below the size target. */
  ghost predicate BelowTarget(cfg: Config, s: Sequencer) {
    s.mode.Sorting? ==> CompressedEst(s) < cfg.batchTargetSize
  }

  lemma TickKeepsBatches(cfg: Config, s: Sequencer, o: Observed)
    ensures AllBatches(Tick(cfg, s, o)) == AllBatches(s)
    ensures BelowTarget(cfg, s) ==> BelowTarget(cfg, Tick(cfg, s, o))
  {
  }

  lemma BlocksSnoc(run: seq<Sealed>, x: Sealed)
    ensures Blocks(run + [x]) == Blocks(run) + [x.block]
    ensures Estimates(run + [x]) == Estimates(run) + x.estimate && (run + [x])[..|run|] == run
  {
    assert (run + [x])[..|run|] == run;
  }

  lemma SealOpens(cfg: Config, x: Sealed)
    requires WellFormed(x.block) && cfg.batchTargetSize > 0
    ensures
      var out := Seal(None, x.anchorId, cfg.coinbase, x.block, UserTxs(x.block.txs), x.estimate);
      out.Updated? && BatchOf(cfg, out.batch, [x])
  {
    WellFormedUserTxs(x.block);
    SealFirst(PackingOn(x.anchorId), cfg.coinbase, x.block, x.estimate);
    BlocksSnoc([], x);
    assert [] + [x] == [x] && [] + [x.block] == [x.block];
    hide UserTxs, Records;
  }

  lemma SealAdds(cfg: Config, batch: Batch, run: seq<Sealed>, x: Sealed)
    requires WellFormed(x.block) && BatchOf(cfg, batch, run) && batch.compressedEst < cfg.batchTargetSize
    ensures
      var out := Seal(Some(batch), x.anchorId, cfg.coinbase, x.block, UserTxs(x.block.txs), x.estimate);
      out.Updated? ==> BatchOf(cfg, out.batch, run + [x])
  {
    WellFormedUserTxs(x.block);
    assert |x.block.txs| > 0;
    BlocksSnoc(run, x);
    var out := Seal(Some(batch), x.anchorId, cfg.coinbase, x.block, UserTxs(x.block.txs), x.estimate);
    if out.Updated? {
      assert batch.anchorBlockId == x.anchorId;
      SealOne(PackingOn(x.anchorId), cfg.coinbase, batch, Blocks(run), x.block, x.estimate);
      hide UserTxs, Records, WellFormed, Blocks, Estimates;
    }
  }

  lemma MatchMore(cfg: Config, batches: seq<Batch>, runs: seq<seq<Sealed>>, batch: Batch, run: seq<Sealed>)
    requires Match(cfg, batches, runs) && BatchOf(cfg, batch, run)
    ensures Match(cfg, batches + [batch], runs + [run]) && Flatten(runs + [run]) == Flatten(runs) + run
  {
    hide BatchOf;
    assert (runs + [run])[..|runs|] == runs;
  }

  lemma MatchLess(cfg: Config, batches: seq<Batch>, runs: seq<seq<Sealed>>)
    requires Match(cfg, batches, runs) && runs != []
    ensures
      var k := |runs| - 1;
      && Match(cfg, batches[..k], runs[..k]) && BatchOf(cfg, batches[k], runs[k])
      && Flatten(runs) == Flatten(runs[..k]) + runs[k]
  {
    hide BatchOf;
  }

  lemma LedgerOpens(cfg: Config, sent: seq<Batch>, runs: seq<seq<Sealed>>, x: Sealed, batch: Batch)
    returns (next: seq<seq<Sealed>>)
    requires Match(cfg, sent, runs) && WellFormed(x.block) && cfg.batchTargetSize > 0
    requires Seal(None, x.anchorId, cfg.coinbase, x.block, UserTxs(x.block.txs), x.estimate) == Updated(batch)
    ensures Match(cfg, sent + [batch], next) && Flatten(next) == Flatten(runs) + [x]
  {
    SealOpens(cfg, x);
    hide *;
    MatchMore(cfg, sent, runs, batch, [x]);
    next := runs + [[x]];
  }

  lemma LedgerGrows(cfg: Config, sent: seq<Batch>, request: Batch, runs: seq<seq<Sealed>>, x: Sealed, batch: Batch)
    returns (next: seq<seq<Sealed>>)
    requires Match(cfg, sent + [request], runs) && WellFormed(x.block) && request.compressedEst < cfg.batchTargetSize
    requires Seal(Some(request), x.anchorId, cfg.coinbase, x.block, UserTxs(x.block.txs), x.estimate) == Updated(batch)
    ensures Match(cfg, sent + [batch], next) && Flatten(next) == Flatten(runs) + [x]
  {
    var k := |sent|;
    assert |runs| == k + 1 && (sent + [request])[..k] == sent;
    hide *;
    MatchLess(cfg, sent + [request], runs);
    SealAdds(cfg, request, runs[k], x);
    MatchMore(cfg, sent, runs[..k], batch, runs[k] + [x]);
    next := runs[..k] + [runs[k] + [x]];
  }

  lemma SealsIntoLedger(cfg: Config, s: Sequencer, sealed: seq<Sealed>, runs: seq<seq<Sealed>>, x: Sealed, batch: Batch)
    returns (next: seq<seq<Sealed>>)
    requires Ledger(cfg, s, sealed, runs) && WellFormed(x.block) && CompressedEst(s) < cfg.batchTargetSize
    requires Seal(s.request, x.anchorId, cfg.coinbase, x.block, UserTxs(x.block.txs), x.estimate) == Updated(batch)
    ensures Ledger(cfg, s.(request := Some(batch)), sealed + [x], next)
  {
    hide Seal, BatchOf, WellFormed, UserTxs, Match, Flatten;
    if s.request.None? {
      assert AllBatches(s) == s.sent;
      next := LedgerOpens(cfg, s.sent, runs, x, batch);
    } else {
      next := LedgerGrows(cfg, s.sent, s.request.value, runs, x, batch);
    }
  }

  lemma ActKeepsLedger(cfg: Config, s: Sequencer, sealed: seq<Sealed>, runs: seq<seq<Sealed>>, o: Observed, a: Action)
    returns (next: seq<seq<Sealed>>)
    requires Ledger(cfg, s, sealed, runs) && BelowTarget(cfg, s) && Allowed(cfg, s, o, a)
    requires a.FinishBlock? ==> HoldsOrders(a.block, a.orders)
    ensures
      var w := Act(cfg, s, sealed, o, a);
      Ledger(cfg, w.s, w.sealed, next)
  {
    var w := Act(cfg, s, sealed, o, a);
    next := runs;
    if a.FinishBlock? && w.crash.None? {
      var x := Sealed(a.block, s.mode.building.anchor.blockId, a.estimate);
      HeldOrders(a.block, a.orders);
      var out := Seal(s.request, x.anchorId, cfg.coinbase, a.block, a.orders, a.estimate);
      next := SealsIntoLedger(cfg, s, sealed, runs, x, out.batch);
      hide Ledger, Seal, WellFormed, UserTxs;
      var s1 := s.(request := Some(out.batch));
      assert AllBatches(w.s) == AllBatches(s1);
      SameLedger(cfg, s1, w.s, w.sealed, next);
    } else {
      hide Ledger, Seal, WellFormed, UserTxs;
      assert AllBatches(w.s) == AllBatches(s);
      SameLedger(cfg, s, w.s, sealed, runs);
    }
  }

  lemma SameLedger(cfg: Config, s: Sequencer, s': Sequencer, sealed: seq<Sealed>, runs: seq<seq<Sealed>>)
    requires Ledger(cfg, s, sealed, runs) && AllBatches(s') == AllBatches(s)
    ensures Ledger(cfg, s', sealed, runs)
  {
  }

  lemma {:induction false} StaysBelowTarget(cfg: Config, passes: seq<Pass>)
    requires Run(cfg, passes).Some?
    ensures BelowTarget(cfg, Run(cfg, passes).value.s)
  {
    if passes != [] {
      var n := |passes| - 1;
      StaysBelowTarget(cfg, passes[..n]);
      var w, p := Run(cfg, passes[..n]).value, passes[n];
      TickKeepsBatches(cfg, w.s, p.observed);
      hide Tick, Seal;
    }
  }

  /** In every run, failed seals included: the batches sent, and then the pending one, record the sealed
      blocks in order, each block once, each batch on one anchor. */
  lemma {:induction false} EverySealedBlockOnce(cfg: Config, passes: seq<Pass>) returns (runs: seq<seq<Sealed>>)
    requires Run(cfg, passes).Some? && SealsOrders(passes)
    ensures
      var w := Run(cfg, passes).value;
      Ledger(cfg, w.s, w.sealed, runs)
  {
    if passes == [] {
      runs := [];
    } else {
      var n := |passes| - 1;
      var before := EverySealedBlockOnce(cfg, passes[..n]);
      StaysBelowTarget(cfg, passes[..n]);
      assert passes[n].action.FinishBlock? ==> HoldsOrders(passes[n].action.block, passes[n].action.orders);
      var w, p := Run(cfg, passes[..n]).value, passes[n];
      var s := Tick(cfg, w.s, p.observed);
      hide Tick, Act, Ledger, Allowed, BelowTarget, HoldsOrders;
      TickKeepsBatches(cfg, w.s, p.observed);
      SameLedger(cfg, w.s, s, w.sealed, before);
      runs := ActKeepsLedger(cfg, s, w.sealed, before, p.observed, p.action);
    }
  }

  /** What L1 reads from a batch: every block's transactions exactly when a u16 counts each block's, and every
      block's time exactly when the clock did not run backwards between the batch's blocks. */
  lemma BatchReadsBack(cfg: Config, batch: Batch, run: seq<Sealed>)
    requires BatchOf(cfg, batch, run)
    ensures Slices(batch.allTxList, batch.blockParams) == TxLists(Blocks(run)) <==> CountsFit(Blocks(run))
    ensures Times(batch.lastTimestamp, batch.blockParams) == Timestamps(Blocks(run))
            <==> forall i | 0 < i < |run| :: run[i - 1].block.timestamp <= run[i].block.timestamp
  {
    var blocks := Blocks(run);
    assert forall i | 0 <= i < |run| :: blocks[i] == run[i].block;
    hide Records, Slices, Times, Timestamps, TxLists, WellFormed, Blocks;
    RecordsRestoreTxs(PackingOn(batch.anchorBlockId), cfg.coinbase, batch, blocks);
    RecordsRestoreTimes(PackingOn(batch.anchorBlockId), cfg.coinbase, batch, blocks);
  }

  // ---- time shifts ----

  /** A block being built is at most 255 seconds after the pending batch. */
  ghost predicate InTime(s: Sequencer) {
    s.mode.Sorting? && s.request.Some? ==> s.mode.building.timestamp <= s.request.value.lastTimestamp + 255
  }

  /** Blocks start at most `delay` seconds after the tick of their pass read the clock. */
  ghost predicate PromptStarts(passes: seq<Pass>, delay: nat) {
    forall i | 0 <= i < |passes| && passes[i].action.Start? :: passes[i].action.now <= passes[i].observed.now + delay
  }

  lemma PassKeepsTime(cfg: Config, s: Sequencer, sealed: seq<Sealed>, p: Pass, delay: nat)
    requires InTime(s) && Allowed(cfg, Tick(cfg, s, p.observed), p.observed, p.action)
    requires p.action.Start? ==> p.action.now <= p.observed.now + delay
    requires cfg.targetBlockTime + delay <= 25
    ensures
      var w := Act(cfg, Tick(cfg, s, p.observed), sealed, p.observed, p.action);
      InTime(w.s) && w.crash != Some(ShiftTooLarge)
  {
  }

  lemma {:induction false} ShiftsFit(cfg: Config, passes: seq<Pass>, delay: nat)
    requires Run(cfg, passes).Some? && PromptStarts(passes, delay) && cfg.targetBlockTime + delay <= 25
    ensures
      var w := Run(cfg, passes).value;
      InTime(w.s) && w.crash != Some(ShiftTooLarge)
  {
    if passes != [] {
      var n := |passes| - 1;
      ShiftsFit(cfg, passes[..n], delay);
      var w, p := Run(cfg, passes[..n]).value, passes[n];
      assert p.action.Start? ==> p.action.now <= p.observed.now + delay;
      hide Tick, Act, InTime, Allowed;
      PassKeepsTime(cfg, w.s, w.sealed, p, delay);
    }
  }

  lemma RunMore(cfg: Config, passes: seq<Pass>, w: World, p: Pass, next: World)
    requires Run(cfg, passes) == Some(w) && w.crash.None?
    requires Allowed(cfg, Tick(cfg, w.s, p.observed), p.observed, p.action)
    requires next == Act(cfg, Tick(cfg, w.s, p.observed), w.sealed, p.observed, p.action)
    ensures Run(cfg, passes + [p]) == Some(next)
  {
    assert (passes + [p])[..|passes|] == passes;
  }

  /** A block of just the anchor transaction. */
  function EmptyBlock(number: nat, timestamp: nat): L2Block {
    L2Block(number, timestamp, 0, [Order(GOLDEN_TOUCH_ADDRESS, 0, 0, 0, 0, 0)])
  }

  lemma EmptyBlockHolds(number: nat, timestamp: nat)
    ensures HoldsOrders(EmptyBlock(number, timestamp), [])
  {
    var b := EmptyBlock(number, timestamp);
    assert b.txs == [b.txs[0]] + [];
  }

  function EmptyBatch(cfg: Config, timestamp: nat): Batch {
    Batch(0, 1, 1, timestamp, [BlockParams(0, 0)], [], 0, cfg.coinbase)
  }

  lemma SealsEmptyBlock(cfg: Config, timestamp: nat)
    ensures
      var anchor := Anchor(0, 0);
      var building := Building(anchor, timestamp, false);
      && SealBlock(cfg, Sequencer(Sorting(building), Some(anchor), None, []), EmptyBlock(1, timestamp), [], 0)
         == Running(Sequencer(Sync, Some(anchor), Some(EmptyBatch(cfg, timestamp)), []))
  {
    var b, params := EmptyBlock(1, timestamp), BlockParams(0, 0);
    assert EMPTY_BATCH.allTxList + [] == [] && EMPTY_BATCH.blockParams + [params] == [params];
  }

  /** Seals an empty block on anchor 0, which was created at time 0. */
  lemma SealOneBlock(cfg: Config, seen: nat) returns (passes: seq<Pass>, w: World)
    requires cfg.batchTargetSize > 0
    ensures Run(cfg, passes) == Some(w) && NoLosses(passes) && SealsOrders(passes)
    ensures |passes| == 3 && passes[1] == Pass(Observed(seen, Some(0), true, false), Start(seen))
    ensures !passes[0].action.Start? && !passes[2].action.Start?
    ensures w.s == Sequencer(Sync, Some(Anchor(0, 0)), Some(EmptyBatch(cfg, seen + cfg.targetBlockTime)), [])
    ensures w.crash.None?
  {
    var b, anchor := EmptyBlock(1, seen + cfg.targetBlockTime), Anchor(0, 0);
    var o0, o := Observed(0, Some(0), true, false), Observed(seen, Some(0), true, false);
    var p0, p1, p2 := Pass(o0, Stay), Pass(o, Start(seen)), Pass(o, FinishBlock(b, [], 0));
    var w0 := World(Sequencer(Sync, Some(anchor), None, []), [], None);
    var w1 := World(w0.s.(mode := Sorting(Building(anchor, b.timestamp, false))), [], None);
    w := World(w0.s.(request := Some(EmptyBatch(cfg, b.timestamp))), [Sealed(b, 0, 0)], None);
    passes := [p0, p1, p2];
    assert [] + [p0] == passes[..1] && passes[..1] + [p1] == passes[..2] && passes[..2] + [p2] == passes;
    SealsEmptyBlock(cfg, b.timestamp);
    EmptyBlockHolds(1, b.timestamp);
    hide SealBlock;
    RunMore(cfg, [], World(SequencerLoop.START, [], None), p0, w0);
    RunMore(cfg, passes[..1], w0, p1, w1);
    RunMore(cfg, passes[..2], w1, p2, w);
    hide Run;
  }

  /** The same, and starts the next block at `late`. */
  lemma SealAndStart(cfg: Config, seen: nat, tick: nat, late: nat) returns (passes: seq<Pass>, w: World)
    requires cfg.batchTargetSize > 0
    requires seen + cfg.targetBlockTime <= tick <= seen + cfg.targetBlockTime + 230 || tick == seen
    ensures Run(cfg, passes) == Some(w) && NoLosses(passes) && SealsOrders(passes)
    ensures |passes| == 4 && passes[1] == Pass(Observed(seen, Some(0), true, false), Start(seen))
    ensures passes[3] == Pass(Observed(tick, Some(0), true, false), Start(late))
    ensures !passes[0].action.Start? && !passes[2].action.Start?
    ensures w.s == Sequencer(Sorting(Building(Anchor(0, 0), late + cfg.targetBlockTime, false)), Some(Anchor(0, 0)),
                             Some(EmptyBatch(cfg, seen + cfg.targetBlockTime)), [])
    ensures w.crash.None?
  {
    var before, w2 := SealOneBlock(cfg, seen);
    var p3 := Pass(Observed(tick, Some(0), true, false), Start(late));
    w := World(w2.s.(mode := Sorting(Building(Anchor(0, 0), late + cfg.targetBlockTime, false))), w2.sealed, None);
    passes := before + [p3];
    hide Run;
    RunMore(cfg, before, w2, p3, w);
  }

  /** The u8 conversion of the time shift holds in all runs, whatever the chain does, exactly when the target
      block time and the delay from the tick's clock reading to the block's leave 25 seconds. */
  lemma ShiftsFitIff(cfg: Config, delay: nat)
    requires cfg.batchTargetSize > 0
    ensures (forall passes | Run(cfg, passes).Some? && PromptStarts(passes, delay) && SealsOrders(passes) ::
               Run(cfg, passes).value.crash != Some(ShiftTooLarge))
            <==> cfg.targetBlockTime + delay <= 25
  {
    if cfg.targetBlockTime + delay <= 25 {
      forall passes | Run(cfg, passes).Some? && PromptStarts(passes, delay) && SealsOrders(passes)
        ensures Run(cfg, passes).value.crash != Some(ShiftTooLarge)
      {
        ShiftsFit(cfg, passes, delay);
      }
    } else {
      var passes := LateBlock(cfg, delay);
    }
  }

  lemma LateBlock(cfg: Config, delay: nat) returns (passes: seq<Pass>)
    requires cfg.batchTargetSize > 0 && cfg.targetBlockTime + delay > 25
    ensures Run(cfg, passes).Some? && PromptStarts(passes, delay) && SealsOrders(passes)
    ensures Run(cfg, passes).value.crash == Some(ShiftTooLarge)
  {
    var tick := cfg.targetBlockTime + 230;
    var before, w := SealAndStart(cfg, 0, tick, tick + delay);
    var b := EmptyBlock(2, tick + delay + cfg.targetBlockTime);
    EmptyBlockHolds(2, b.timestamp);
    var p := Pass(Observed(tick, Some(0), true, false), FinishBlock(b, [], 0));
    var next := World(w.s, w.sealed, Some(ShiftTooLarge));
    RunMore(cfg, before, w, p, next);
    passes := before + [p];
    hide Run;
  }

  /** Every sealed block has one transaction more than there are sorted orders. */
  predicate CountsAgree(passes: seq<Pass>) {
    forall i | 0 <= i < |passes| && passes[i].action.FinishBlock? ::
      |passes[i].action.block.txs| == |passes[i].action.orders| + 1
  }

  /** With prompt starts, no stranding and agreeing counts, no assertion of the sealing code ever fails; and a
      failed count assertion means that the counts of the last pass differ. */
  lemma NeverCrashes(cfg: Config, passes: seq<Pass>, delay: nat)
    requires Run(cfg, passes).Some? && NoneStranded(cfg, passes) && CountsAgree(passes)
    requires PromptStarts(passes, delay) && cfg.targetBlockTime + delay <= 25
    ensures Run(cfg, passes).value.crash.None?
  {
    BatchesKeepTheirAnchor(cfg, passes);
    ShiftsFit(cfg, passes, delay);
    CrashesAre(cfg, passes);
    CountsCrash(cfg, passes);
  }

  lemma CountsCrash(cfg: Config, passes: seq<Pass>)
    requires Run(cfg, passes).Some?
    ensures Run(cfg, passes).value.crash == Some(CountMismatch) ==>
              && passes != [] && passes[|passes| - 1].action.FinishBlock?
              && |passes[|passes| - 1].action.block.txs| != |passes[|passes| - 1].action.orders| + 1
  {
  }

  lemma CrashesAre(cfg: Config, passes: seq<Pass>)
    requires Run(cfg, passes).Some?
    ensures Run(cfg, passes).value.crash in {None, Some(AnchorMismatch), Some(ShiftTooLarge), Some(CountMismatch)}
  {
  }

  // ---- when a lost block can stop the process ----

  predicate NoLosses(rest: seq<Pass>) {
    forall i | 0 <= i < |rest| :: !rest[i].action.LoseBlock?
  }

  /** No pass reads the clock before `from`. */
  predicate NotBefore(rest: seq<Pass>, from: nat) {
    forall i | 0 <= i < |rest| :: rest[i].observed.now >= from
  }

  ghost predicate Mismatches(cfg: Config, passes: seq<Pass>) {
    Run(cfg, passes).Some? && Run(cfg, passes).value.crash == Some(AnchorMismatch)
  }

  /** Without further losses, one anchor after the next tick is one anchor for good. */
  lemma {:induction false} AnchorKeptFrom(cfg: Config, passes: seq<Pass>, rest: seq<Pass>)
    requires rest != [] && NoLosses(rest) && Run(cfg, passes + rest).Some? && Run(cfg, passes).Some?
    requires OneAnchor(Tick(cfg, Run(cfg, passes).value.s, rest[0].observed))
    ensures
      var w := Run(cfg, passes + rest).value;
      w.crash != Some(AnchorMismatch) && (w.crash.None? ==> OneAnchor(w.s))
  {
    var n := |rest| - 1;
    var all, before := passes + rest, passes + rest[..n];
    assert all[..|all| - 1] == before && all[|all| - 1] == rest[n];
    var w := Run(cfg, before).value;
    var s := Tick(cfg, w.s, rest[n].observed);
    assert Run(cfg, all).value == Act(cfg, s, w.sealed, rest[n].observed, rest[n].action);
    assert Allowed(cfg, s, rest[n].observed, rest[n].action);
    if n == 0 {
      assert before == passes;
    } else {
      hide Run, Tick, Act, OneAnchor, Allowed;
      AnchorKeptFrom(cfg, passes, rest[..n]);
      TickKeepsAnchor(cfg, w.s, rest[n].observed);
    }
    hide *;
    ActKeepsAnchor(cfg, s, w.sealed, rest[n].observed, rest[n].action);
  }

  lemma {:induction false} PrefixRuns(cfg: Config, passes: seq<Pass>, rest: seq<Pass>)
    requires Run(cfg, passes + rest).Some?
    ensures Run(cfg, passes).Some?
    ensures rest != [] ==> Run(cfg, passes).value.crash.None?
  {
    var all := passes + rest;
    if rest == [] {
      assert all == passes;
    } else {
      var n := |rest| - 1;
      assert all[..|all| - 1] == passes + rest[..n];
      PrefixRuns(cfg, passes, rest[..n]);
      if n == 0 {
        assert passes + rest[..n] == passes;
      }
    }
  }

  lemma PassBuildsOnAnchor(cfg: Config, s: Sequencer, sealed: seq<Sealed>, p: Pass)
    requires s.mode.Sorting? ==> s.anchor.Some?
    requires Allowed(cfg, Tick(cfg, s, p.observed), p.observed, p.action)
    ensures
      var s' := Act(cfg, Tick(cfg, s, p.observed), sealed, p.observed, p.action).s;
      s'.mode.Sorting? ==> s'.anchor.Some?
  {
    hide Seal;
  }

  /** A block is only built on a known anchor. */
  lemma {:induction false} BuildsOnAnchor(cfg: Config, passes: seq<Pass>)
    requires Run(cfg, passes).Some?
    ensures var s := Run(cfg, passes).value.s; s.mode.Sorting? ==> s.anchor.Some?
  {
    if passes != [] {
      var n := |passes| - 1;
      BuildsOnAnchor(cfg, passes[..n]);
      var w, p := Run(cfg, passes[..n]).value, passes[n];
      PassBuildsOnAnchor(cfg, w.s, w.sealed, p);
      hide Tick, Act, Allowed;
    }
  }

  /** The next block after a stranding loss, if it is started before the batch is too old. */
  lemma StrandingCrashes(cfg: Config, passes: seq<Pass>, o: Observed, now: nat) returns (rest: seq<Pass>)
    requires Run(cfg, passes).Some? && Run(cfg, passes).value.crash.None?
    requires
      var s := Tick(cfg, Run(cfg, passes).value.s, o);
      OneAnchor(s) && Strands(s) && now <= s.request.value.lastTimestamp + 230
    ensures Mismatches(cfg, passes + [Pass(o, LoseBlock)] + rest)
    ensures NoLosses(rest) && SealsOrders(rest) && forall i | 0 <= i < |rest| :: rest[i].observed.now == now
  {
    StaysBelowTarget(cfg, passes);
    BuildsOnAnchor(cfg, passes);
    var w := Run(cfg, passes).value;
    TickKeepsBatches(cfg, w.s, o);
    var s := Tick(cfg, w.s, o);
    assert BelowTarget(cfg, s) && s.anchor.Some?;
    var o1, b := Observed(now, None, true, false), EmptyBlock(0, now + cfg.targetBlockTime);
    EmptyBlockHolds(0, b.timestamp);
    var lose, start, finish := Pass(o, LoseBlock), Pass(o1, Start(now)), Pass(o1, FinishBlock(b, [], 0));
    var w0 := World(s.(mode := Sync), w.sealed, None);
    var w1 := World(w0.s.(mode := Sorting(Building(s.anchor.value, b.timestamp, false))), w.sealed, None);
    var w2 := World(w1.s, w.sealed, Some(AnchorMismatch));
    hide Run;
    RunMore(cfg, passes, w, lose, w0);
    assert Tick(cfg, w0.s, o1) == w0.s && Tick(cfg, w1.s, o1) == w1.s;
    RunMore(cfg, passes + [lose], w0, start, w1);
    RunMore(cfg, passes + [lose] + [start], w1, finish, w2);
    rest := [start, finish];
    assert passes + [lose] + rest == passes + [lose] + [start] + [finish];
  }

  lemma LossKeepsAnchor(cfg: Config, passes: seq<Pass>, o: Observed, rest: seq<Pass>)
    requires Run(cfg, passes).Some? && Run(cfg, passes).value.crash.None?
    requires
      var s := Tick(cfg, Run(cfg, passes).value.s, o);
      && OneAnchor(s) && s.mode.Sorting?
      && (Strands(s) ==> o.now > s.request.value.lastTimestamp + 230 && NotBefore(rest, o.now))
    requires NoLosses(rest)
    ensures !Mismatches(cfg, passes + [Pass(o, LoseBlock)] + rest)
  {
    var w, lose := Run(cfg, passes).value, Pass(o, LoseBlock);
    var s := Tick(cfg, w.s, o);
    var lost := passes + [lose];
    RunMore(cfg, passes, w, lose, World(FailSeal(s), w.sealed, None));
    LosingKeepsIff(s);
    if rest == [] {
      assert lost + rest == lost;
    } else if Run(cfg, lost + rest).Some? {
      TickFlushes(cfg, FailSeal(s), rest[0].observed);
      if Strands(s) {
        assert rest[0].observed.now >= o.now;
        assert Tick(cfg, FailSeal(s), rest[0].observed).request.None?;
      } else {
        TickKeepsAnchor(cfg, FailSeal(s), rest[0].observed);
      }
      hide Run;
      AnchorKeptFrom(cfg, lost, rest);
    }
  }

  ghost predicate CanMismatch(cfg: Config, passes: seq<Pass>, o: Observed, from: nat) {
    exists rest ::
      && NoLosses(rest) && NotBefore(rest, from) && SealsOrders(rest)
      && Mismatches(cfg, passes + [Pass(o, LoseBlock)] + rest)
  }

  /** From every reachable state with one anchor, losing the block being built can lead to a failed anchor
      assertion, without another loss, exactly when it strands a batch; and with a clock that never reads
      earlier than at the loss, exactly when besides the batch is not yet due for its age. */
  lemma MismatchIffStranded(cfg: Config, passes: seq<Pass>, o: Observed)
    requires Run(cfg, passes).Some? && Run(cfg, passes).value.crash.None? && OneAnchor(Run(cfg, passes).value.s)
    requires Tick(cfg, Run(cfg, passes).value.s, o).mode.Sorting?
    ensures
      var s := Tick(cfg, Run(cfg, passes).value.s, o);
      && (CanMismatch(cfg, passes, o, 0) <==> Strands(s))
      && (CanMismatch(cfg, passes, o, o.now) <==> Strands(s) && o.now <= s.request.value.lastTimestamp + 230)
  {
    var s := Tick(cfg, Run(cfg, passes).value.s, o);
    TickKeepsAnchor(cfg, Run(cfg, passes).value.s, o);
    hide Run, Tick, Mismatches, OneAnchor;
    if Strands(s) {
      var rest := StrandingCrashes(cfg, passes, o, s.request.value.lastTimestamp);
      assert NotBefore(rest, 0);
      if o.now <= s.request.value.lastTimestamp + 230 {
        rest := StrandingCrashes(cfg, passes, o, o.now);
        assert NotBefore(rest, o.now);
      }
    }
    forall rest | NoLosses(rest) && (Strands(s) ==> o.now > s.request.value.lastTimestamp + 230 && NotBefore(rest, o.now))
      ensures !Mismatches(cfg, passes + [Pass(o, LoseBlock)] + rest)
    {
      LossKeepsAnchor(cfg, passes, o, rest);
    }
  }

  /** Under every configuration that builds blocks such a run exists: the anchor is refreshed while a block is
      built for a batch, the block is lost, and the next one is on the new anchor. */
  lemma StrandedBatchCrashes(cfg: Config) returns (passes: seq<Pass>)
    requires cfg.batchTargetSize > 0 && cfg.anchorBatchLag * 12 + 1 < U64
    ensures Mismatches(cfg, passes) && SealsOrders(passes)
  {
    var age := cfg.anchorBatchLag * 12;
    var before, w := SealAndStart(cfg, age, age, age);
    var o := Observed(age + 1, Some(1), true, false);
    assert OneAnchor(Tick(cfg, w.s, o)) && Strands(Tick(cfg, w.s, o));
    hide Run, Tick;
    var rest := StrandingCrashes(cfg, before, o, age + 1);
    passes := before + [Pass(o, LoseBlock)] + rest;
  }
}
