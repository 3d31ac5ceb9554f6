/** More about sorting runs: the block's size limit, and what happens to transactions that arrive. */
module SortingLimits {
  import opened GatewayTypes
  import opened TxLists
  import opened Simulation
  import opened Sorting
  import opened SortingRuns

  function SizeOf(orders: seq<Order>): nat {
    if orders == [] then 0 else SizeOf(orders[..|orders| - 1]) + orders[|orders| - 1].rawLen
  }

  /** The block without its last order keeps within the size limit, and a block over it is due to be sealed. */
  ghost predicate SizeOk(st: SortState, estimate: nat -> nat) {
    && st.uncompressedSize == SizeOf(st.orders)
    && (st.orders != [] && estimate(SizeOf(st.orders)) > st.maxBlockSize ==> st.shouldSeal)
    && (|st.orders| >= 2 ==> estimate(SizeOf(st.orders[..|st.orders| - 1])) <= st.maxBlockSize)
  }

  lemma ApplyKeepsSize(st: SortState, estimate: nat -> nat)
    requires SizeOk(st, estimate) && st.NextBestFits() && !st.shouldSeal
    ensures SizeOk(ApplyNext(st, estimate), estimate)
  {
    match st.nextBest
    case None =>
    case Some(best) =>
      var orders := st.orders + [best.order];
      assert orders[..|orders| - 1] == st.orders;
      assert SizeOf(orders) == SizeOf(st.orders) + best.order.rawLen;
      hide SizeOf;
      assert ApplyNext(st, estimate).orders == orders;
  }

  lemma AnswersKeepSize(st: SortState, estimate: nat -> nat, answer: SimulatedOrder)
    requires SizeOk(st, estimate)
    ensures SizeOk(HandleSim(st, answer), estimate) && HandleSim(st, answer).maxBlockSize == st.maxBlockSize
  {
    hide SizeOf, PutOrder, DropSender;
  }

  lemma TurnKeepsSize(cfg: Setting, st: SortState, pastTarget: bool, pastMaxSkip: bool)
    requires SizeOk(st, cfg.estimate) && st.NextBestFits()
    ensures
      var st' := NextBatch(st, cfg.estimate, cfg.maxSims, pastTarget, pastMaxSkip).0;
      SizeOk(st', cfg.estimate) && st'.maxBlockSize == st.maxBlockSize
  {
    var next := NextBatch(st, cfg.estimate, cfg.maxSims, pastTarget, pastMaxSkip).0;
    if st.inFlight > 0 || st.ShouldSeal(pastTarget, pastMaxSkip) {
      assert next == st;
    } else {
      var applied := ApplyNext(st, cfg.estimate);
      ApplyKeepsSize(st, cfg.estimate);
      assert applied.maxBlockSize == st.maxBlockSize;
      hide ApplyNext, SizeOk, TakeReady;
      SameSize(applied, next, cfg.estimate);
    }
  }

  lemma SameSize(st: SortState, st': SortState, estimate: nat -> nat)
    requires SizeOk(st, estimate)
    requires st'.uncompressedSize == st.uncompressedSize && st'.orders == st.orders
    requires st'.maxBlockSize == st.maxBlockSize && (st.shouldSeal ==> st'.shouldSeal)
    ensures SizeOk(st', estimate)
  {
    hide SizeOf;
  }

  lemma StepKeepsSize(cfg: Setting, sys: System, ev: Event)
    requires SizeOk(sys.sort, cfg.estimate) && sys.sort.NextBestFits()
    ensures
      var st := Step(cfg, sys, ev).sort;
      SizeOk(st, cfg.estimate) && st.maxBlockSize == sys.sort.maxBlockSize
  {
    match ev
    case Reply(i) =>
      if i < |sys.bag| {
        var p := sys.bag[i];
        var answer := SimulatedOrder(p.origin, cfg.sim.exec(p.origin, p.order), p.order);
        AnswersKeepSize(sys.sort, cfg.estimate, answer);
        hide HandleSim, SizeOk;
      }
    case NewTx(_) =>
    case SealSoon =>
    case Turn(pastTarget, pastMaxSkip) =>
      TurnKeepsSize(cfg, sys.sort, pastTarget, pastMaxSkip);
      hide NextBatch, SizeOk;
  }

  lemma {:induction false} RunKeepsSize(cfg: Setting, sys: System, events: seq<Event>)
    requires SizeOk(sys.sort, cfg.estimate) && sys.sort.NextBestFits()
    ensures
      var st := Run(cfg, sys, events).sort;
      SizeOk(st, cfg.estimate) && st.maxBlockSize == sys.sort.maxBlockSize
    decreases |events|
  {
    if events != [] {
      StepKeepsSize(cfg, sys, events[0]);
      RunKeepsSize(cfg, Step(cfg, sys, events[0]), events[1..]);
    }
  }

  /** In every run only the last order of a block can take it over its size limit, and then no further
      order is applied before the block is sealed. */
  lemma OnlyLastOrderOverruns(cfg: Setting, sys: System, events: seq<Event>)
    requires Start(cfg, sys)
    ensures
      var st := Run(cfg, sys, events).sort;
      && (|st.orders| >= 2 ==> cfg.estimate(SizeOf(st.orders[..|st.orders| - 1])) <= sys.sort.maxBlockSize)
      && (st.orders != [] && cfg.estimate(SizeOf(st.orders)) > sys.sort.maxBlockSize ==>
            forall pastTarget, pastMaxSkip :: NextBatch(st, cfg.estimate, cfg.maxSims, pastTarget, pastMaxSkip) == (st, []))
  {
    RunKeepsSize(cfg, sys, events);
  }

  /** In every run an arriving transaction is active afterwards, in place of one with its sender and nonce, and
      wakes the engine, unless it does not pay the base fee or its account is known to have moved past it; such
      a one changes nothing and could not execute. */
  lemma ArrivalsTaken(cfg: Setting, sys: System, events: seq<Event>, order: Order)
    requires Start(cfg, sys)
    ensures
      var st := Run(cfg, sys, events).sort;
      var st' := Step(cfg, Run(cfg, sys, events), NewTx(order)).sort;
      var spent := st.nonces.Get(order.sender).Some? && order.nonce < cfg.sim.nonce(st.stateId, order.sender);
      if order.maxFeePerGas >= st.baseFee && !spent
      then st' == st.(waiting := false, lists := st'.lists) && Puts(st.lists, order, st'.lists)
      else st' == st && (spent ==> Executed(cfg.sim, st.stateId, order).None?)
  {
    StartInv(cfg, sys);
    RunInv(cfg, sys, events);
    var st := Run(cfg, sys, events).sort;
    PutsOrder(st.lists, order);
    assert ExecutesWell(cfg.sim, st.baseFee, st.stateId, order);
    hide PutOrder, Puts, ValidLists;
  }
}
