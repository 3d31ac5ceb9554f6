/** What every step of the sequencer's loop does, in terms of what it observed. */
module SequencerSteps {
  import opened GatewayTypes
  import opened Batches
  import opened Sealing
  import opened SequencerLoop
  import opened SequencerRuns

  /** A new anchor is due: there is none yet, or a later safe L1 block is known and the anchor is too old or the
      pending batch is above the size target. */
  predicate AnchorDue(cfg: Config, s: Sequencer, o: Observed) {
    o.canSequence && o.safeL1.Some?
    && match s.anchor
       case None => true
       case Some(anchor) =>
         && o.safeL1.value > anchor.blockId
         && (|| (o.now - anchor.createdAt) % U64 > cfg.anchorBatchLag * 12
             || (s.request.Some? && s.request.value.compressedEst > cfg.batchTargetSize))
  }

  /** The pending batch has to go: its anchor is replaced, the turn ends, or it is over 230 seconds old. */
  predicate SendDue(cfg: Config, s: Sequencer, o: Observed) {
    || AnchorDue(cfg, s, o)
    || o.clearProposal
    || (s.request.Some? && o.now > s.request.value.lastTimestamp + 230)
  }

  /** A tick takes the safe L1 block as the anchor exactly if that is due. Between blocks it sends the pending
      batch exactly if that is due; while a block is built it makes sealing due instead. */
  lemma TickMeaning(cfg: Config, s: Sequencer, o: Observed)
    ensures
      var s' := Tick(cfg, s, o);
      && s'.anchor == (if AnchorDue(cfg, s, o) then Some(Anchor(o.safeL1.value, o.now)) else s.anchor)
      && match s.mode
         case Sync =>
           && s'.mode.Sync?
           && (if SendDue(cfg, s, o) then s'.request.None? && s'.sent == AllBatches(s)
               else s'.request == s.request && s'.sent == s.sent)
         case Sorting(building) =>
           && s'.request == s.request && s'.sent == s.sent
           && s'.mode == Sorting(building.(shouldSeal := building.shouldSeal || SendDue(cfg, s, o)))
  {
    assert s.sent + [] == s.sent;
  }

  /** A tick that may sequence and knows a safe L1 block leaves an anchor; if that is below the safe block it is
      young enough, and what is pending on it is within the size target. */
  lemma AnchorIsRecent(cfg: Config, s: Sequencer, o: Observed)
    requires o.canSequence && o.safeL1.Some?
    ensures
      var s' := Tick(cfg, s, o);
      && s'.anchor.Some?
      && (s'.anchor.value.blockId < o.safeL1.value ==>
            && (o.now - s'.anchor.value.createdAt) % U64 <= cfg.anchorBatchLag * 12
            && (s.request.Some? ==> s.request.value.compressedEst <= cfg.batchTargetSize))
  {
    TickMeaning(cfg, s, o);
  }

  /** A block starts on such an anchor in every run, one target block time after the clock. */
  lemma StartMeaning(cfg: Config, passes: seq<Pass>, o: Observed, now: nat)
    requires Run(cfg, passes).Some? && Run(cfg, passes + [Pass(o, Start(now))]).Some? && o.safeL1.Some?
    ensures
      var s' := Run(cfg, passes + [Pass(o, Start(now))]).value.s;
      && s'.mode.Sorting? && s'.anchor == Some(s'.mode.building.anchor)
      && s'.mode.building.timestamp == now + cfg.targetBlockTime && !s'.mode.building.shouldSeal
      && (s'.anchor.value.blockId >= o.safeL1.value
          || (o.now - s'.anchor.value.createdAt) % U64 <= cfg.anchorBatchLag * 12)
  {
    var all := passes + [Pass(o, Start(now))];
    assert all[..|all| - 1] == passes;
    AnchorIsRecent(cfg, Run(cfg, passes).value.s, o);
    hide Tick;
  }

  /** What happens to the batches when a block is given up: publication failed and nothing else changes, or it
      was discarded and the batch is sent if the block's anchor is no longer the current one. */
  lemma GivenUpMeaning(s: Sequencer)
    requires s.mode.Sorting?
    ensures FailSeal(s) == Sequencer(Sync, s.anchor, s.request, s.sent)
    ensures
      Discard(s)
      == if s.anchor.Some? && s.anchor.value.blockId == s.mode.building.anchor.blockId
         then Sequencer(Sync, s.anchor, s.request, s.sent)
         else Sequencer(Sync, s.anchor, None, AllBatches(s))
  {
    assert s.sent + [] == s.sent;
  }

  /** A sealed block stops the process exactly if it is on another anchor than the pending batch, more than 255
      seconds after it, or has not one transaction more than there are orders. Otherwise it ends the pending batch,
      which stays pending exactly if the block's anchor is still the current one. */
  lemma SealedMeaning(cfg: Config, s: Sequencer, b: L2Block, orders: seq<Order>, estimate: nat)
    requires s.mode.Sorting? && |b.txs| > 0
    ensures
      var next, used := SealBlock(cfg, s, b, orders, estimate), s.mode.building.anchor.blockId;
      && (next.Running?
          <==> && |b.txs| == |orders| + 1
               && (s.request.Some? ==>
                     s.request.value.anchorBlockId == used && b.timestamp <= s.request.value.lastTimestamp + 255))
      && (next.Running? ==>
            && next.s.mode.Sync? && next.s.anchor == s.anchor
            && |AllBatches(next.s)| == |s.sent| + 1 && AllBatches(next.s)[..|s.sent|] == s.sent
            && (next.s.request.Some? <==> s.anchor.Some? && s.anchor.value.blockId == used)
            && (next.s.request.None? ==> next.s.sent == AllBatches(next.s))
            && var batch := AllBatches(next.s)[|s.sent|];
               && batch.endBlockNum == b.number && batch.lastTimestamp == b.timestamp
               && batch.anchorBlockId == used
               && (s.request.None? ==>
                     && batch.startBlockNum == b.number && batch.coinbase == cfg.coinbase
                     && batch.allTxList == orders && batch.compressedEst == estimate
                     && batch.blockParams == [BlockParams(|orders| % 0x1_0000, 0)])
               && (s.request.Some? ==>
                     var before := s.request.value;
                     && batch.startBlockNum == before.startBlockNum && batch.coinbase == before.coinbase
                     && batch.allTxList == before.allTxList + orders
                     && batch.compressedEst == before.compressedEst + estimate
                     && |batch.blockParams| == |before.blockParams| + 1
                     && batch.blockParams[..|before.blockParams|] == before.blockParams
                     && batch.blockParams[|before.blockParams|].numTransactions == |orders| % 0x1_0000
                     && (b.timestamp >= before.lastTimestamp ==>
                           before.lastTimestamp + batch.blockParams[|before.blockParams|].timeShift == b.timestamp)
                     && (b.timestamp < before.lastTimestamp ==>
                           batch.blockParams[|before.blockParams|].timeShift == 0)))
  {
    assert EMPTY_BATCH.allTxList + orders == orders;
    if s.request.None? {
      assert EMPTY_BATCH.blockParams + [BlockParams(|orders| % 0x1_0000, 0)] == [BlockParams(|orders| % 0x1_0000, 0)];
    }
  }

  // ---- anchors only advance ----

  /** The anchors of the sealed blocks never decrease, and lead up to the anchor of the block being built and on
      to the current one. */
  ghost predicate AnchorsInOrder(w: World) {
    && (forall i, j | 0 <= i < j < |w.sealed| :: w.sealed[i].anchorId <= w.sealed[j].anchorId)
    && (w.s.mode.Sorting? || w.sealed != [] ==> w.s.anchor.Some?)
    && (w.s.mode.Sorting? ==> w.s.mode.building.anchor.blockId <= w.s.anchor.value.blockId)
    && (forall i | 0 <= i < |w.sealed| ::
          w.sealed[i].anchorId
          <= if w.s.mode.Sorting? then w.s.mode.building.anchor.blockId else w.s.anchor.value.blockId)
  }

  lemma PassKeepsAnchorOrder(cfg: Config, w: World, p: Pass)
    requires AnchorsInOrder(w) && Allowed(cfg, Tick(cfg, w.s, p.observed), p.observed, p.action)
    ensures AnchorsInOrder(Act(cfg, Tick(cfg, w.s, p.observed), w.sealed, p.observed, p.action))
    ensures
      w.s.anchor.Some? ==>
        var anchor := Act(cfg, Tick(cfg, w.s, p.observed), w.sealed, p.observed, p.action).s.anchor;
        anchor == w.s.anchor || (anchor.Some? && anchor.value.blockId > w.s.anchor.value.blockId)
  {
    var s := Tick(cfg, w.s, p.observed);
    TickMeaning(cfg, w.s, p.observed);
    hide Tick;
    assert AnchorsInOrder(World(s, w.sealed, None));
    if p.action.FinishBlock? {
      SealedMeaning(cfg, s, p.action.block, p.action.orders, p.action.estimate);
      hide SealBlock;
    } else if p.action.DropBlock? {
      GivenUpMeaning(s);
      hide Discard;
    }
  }

  /** Over every run, losses included, the blocks are sealed on anchors that never decrease: grouped by anchor
      they keep their order. */
  lemma {:induction false} AnchorsNeverDecrease(cfg: Config, passes: seq<Pass>)
    requires Run(cfg, passes).Some?
    ensures AnchorsInOrder(Run(cfg, passes).value)
  {
    if passes != [] {
      var n := |passes| - 1;
      AnchorsNeverDecrease(cfg, passes[..n]);
      var w, p := Run(cfg, passes[..n]).value, passes[n];
      hide Tick, Act, AnchorsInOrder, Allowed;
      PassKeepsAnchorOrder(cfg, w, p);
    }
  }
}
