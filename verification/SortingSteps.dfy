/** What every step of sorting does, in terms of the simulator, the environment and the active orders. */
module SortingSteps {
  import opened GatewayTypes
  import opened TxLists
  import opened Simulation
  import opened Sorting
  import opened SortingRuns

  /** Nothing about the block built so far has changed. */
  ghost predicate SameBlock(st: SortState, st': SortState) {
    && st'.stateId == st.stateId && st'.orders == st.orders && st'.gasRemaining == st.gasRemaining
    && st'.builderPayment == st.builderPayment && st'.uncompressedSize == st.uncompressedSize
    && st'.baseFee == st.baseFee && st'.maxBlockSize == st.maxBlockSize && st'.minOrders == st.minOrders
    && st'.waiting == st.waiting
  }

  /** An executed order that fits the gas left is held if it pays more than the one held before, which is put
      back then; or else is put back itself. One that does not fit is lost. */
  ghost predicate Offers(st: SortState, v: ValidOrder, st': SortState) {
    if v.gasUsed > st.gasRemaining then st'.nextBest == st.nextBest && st'.lists == st.lists
    else
      match st.nextBest
      case None => st'.nextBest == Some(v) && st'.lists == st.lists
      case Some(best) =>
        if best.builderPayment < v.builderPayment
        then st'.nextBest == Some(v) && Puts(st.lists, best.order, st'.lists)
        else st'.nextBest == st.nextBest && Puts(st.lists, v.order, st'.lists)
  }

  /** The sender's nonce on the current state is known now, and nothing else is known differently. */
  ghost predicate Learns(sim: Simulator, st: SortState, a: Address, st': SortState) {
    && st'.nonces.Get(a) == Some(sim.nonce(st.stateId, a))
    && forall b | b != a :: st'.nonces.Get(b) == st.nonces.Get(b)
  }

  /** The transactions of a sender without funds are dropped for this block, and no others. */
  ghost predicate Drops(lists: seq<TxList>, a: Address, next: seq<TxList>) {
    forall o :: HasOrder(next, o) <==> HasOrder(lists, o) && o.sender != a
  }

  /** What an answer for the current state does. */
  ghost predicate Answers(sim: Simulator, st: SortState, order: Order, st': SortState) {
    && SameBlock(st, st') && st'.inFlight == st.inFlight - 1
    && match sim.exec(st.stateId, order)
       case Success(id, gas, payment) =>
         && Offers(st, ValidOrder(st.stateId, id, gas, payment, order), st')
         && st'.nonces == st.nonces && st'.shouldSeal == st.shouldSeal && st'.shouldDiscard == st.shouldDiscard
       case Revert(id, gas, payment) =>
         && Offers(st, ValidOrder(st.stateId, id, gas, payment, order), st')
         && st'.nonces == st.nonces && st'.shouldSeal == st.shouldSeal && st'.shouldDiscard == st.shouldDiscard
       case Invalid(reason) =>
         && st'.nextBest == st.nextBest
         && (st'.shouldSeal <==> st.shouldSeal || reason.NotEnoughGas?)
         && (st'.shouldDiscard <==> st.shouldDiscard || reason.StateIdNotFound?)
         && (if reason.NonceTooLow? || reason.NonceTooHigh? || reason.CapLessThanBaseFee? || reason.InsufficientFunds?
             then Learns(sim, st, order.sender, st') else st'.nonces == st.nonces)
         && (if reason.InsufficientFunds? then Drops(st.lists, order.sender, st'.lists) else st'.lists == st.lists)
  }

  lemma TeachLearns(sim: Simulator, st: SortState, a: Address, st': SortState)
    requires NoncesTrue(sim, st)
    requires st'.nonces == st.nonces.InsertState(a, sim.nonce(st.stateId, a))
    ensures Learns(sim, st, a, st')
  {
    hide CountSender;
  }

  lemma DropDrops(lists: seq<TxList>, a: Address)
    requires ValidLists(lists)
    ensures Drops(lists, a, DropSender(lists, a))
  {
    forall o
      ensures HasOrder(DropSender(lists, a), o) <==> HasOrder(lists, o) && o.sender != a
    {
      DropSenderContents(lists, a, o);
    }
  }

  lemma RejectAnswers(sim: Simulator, st: SortState, order: Order)
    requires ExecutesWell(sim, st.baseFee, st.stateId, order) && sim.exec(st.stateId, order).Invalid?
    requires ValidLists(st.lists) && NoncesTrue(sim, st)
    ensures
      var answer := SimulatedOrder(st.stateId, sim.exec(st.stateId, order), order);
      Answers(sim, st, order, HandleSim(st, answer))
  {
    var reason := sim.exec(st.stateId, order).reason;
    var st' := HandleSim(st, SimulatedOrder(st.stateId, sim.exec(st.stateId, order), order));
    var current := sim.nonce(st.stateId, order.sender);
    assert reason.NonceTooLow? || reason.NonceTooHigh? ==> reason.state == current;
    assert reason.CapLessThanBaseFee? || reason.InsufficientFunds? ==> order.nonce == current;
    hide DropSender, HasOrder, ValidLists, NoncesTrue, ExecutesWell, Learns, Drops;
    assert SameBlock(st, st');
    if reason.NonceTooLow? || reason.NonceTooHigh? || reason.CapLessThanBaseFee? || reason.InsufficientFunds? {
      assert st'.nonces == st.nonces.InsertState(order.sender, current);
      TeachLearns(sim, st, order.sender, st');
    }
    if reason.InsufficientFunds? {
      DropDrops(st.lists, order.sender);
    }
  }

  lemma OfferOffers(st: SortState, v: ValidOrder)
    requires ValidLists(st.lists) && v.gasUsed <= st.gasRemaining
    ensures
      var st' := Offer(st, v);
      Offers(st, v, st') && st' == st.(nextBest := st'.nextBest, lists := st'.lists)
  {
    if st.nextBest.Some? {
      PutsOrder(st.lists, v.order);
      PutsOrder(st.lists, st.nextBest.value.order);
    }
    hide PutOrder, Puts, ValidLists;
  }

  lemma AcceptAnswers(sim: Simulator, st: SortState, order: Order)
    requires !sim.exec(st.stateId, order).Invalid? && ValidLists(st.lists)
    ensures
      var answer := SimulatedOrder(st.stateId, sim.exec(st.stateId, order), order);
      Answers(sim, st, order, HandleSim(st, answer))
  {
    var result := sim.exec(st.stateId, order);
    var counted, v := st.(inFlight := st.inFlight - 1),
                      ValidOrder(st.stateId, result.stateId, result.gasUsed, result.builderPayment, order);
    var st' := HandleSim(st, SimulatedOrder(st.stateId, result, order));
    hide Offer, PutOrder, Puts, ValidLists;
    if v.gasUsed <= st.gasRemaining {
      assert st' == Offer(counted, v);
      OfferOffers(counted, v);
    } else {
      assert st' == counted;
    }
    hide HandleSim;
  }

  /** In every run, an answer for the current state does what `Answers` says, and any other does nothing. */
  lemma ReplyMeaning(cfg: Setting, sys: System, events: seq<Event>, i: nat)
    requires Start(cfg, sys) && i < |Run(cfg, sys, events).bag|
    ensures
      var now := Run(cfg, sys, events);
      var next := Step(cfg, now, Reply(i));
      && next.bag == now.bag[..i] + now.bag[i + 1..]
      && (if now.bag[i].origin == now.sort.stateId
          then Answers(cfg.sim, now.sort, now.bag[i].order, next.sort)
          else next.sort == now.sort)
  {
    StartInv(cfg, sys);
    RunInv(cfg, sys, events);
    var now := Run(cfg, sys, events);
    if now.bag[i].origin == now.sort.stateId {
      CurrentReplyFacts(cfg, now, i);
      hide Run, Inv, Start, Answers, HandleSim, NoncesTrue, ValidLists;
      if cfg.sim.exec(now.sort.stateId, now.bag[i].order).Invalid? {
        RejectAnswers(cfg.sim, now.sort, now.bag[i].order);
      } else {
        AcceptAnswers(cfg.sim, now.sort, now.bag[i].order);
      }
    }
  }

  // ---- turns ----

  /** A turn acts unless simulations are out or sealing is due: asked for, late with enough orders, or too
      late with any number. */
  predicate TurnDue(st: SortState, pastTarget: bool, pastMaxSkip: bool) {
    st.inFlight <= 0 && !st.shouldSeal && !(|st.orders| >= st.minOrders && pastTarget) && !pastMaxSkip
  }

  /** The order held joins the block, which moves to the state, gas, payment and size after it; the sender's
      nonce is known to be the next one; and sealing is due if the estimate exceeds the block's limit. */
  ghost predicate Applies(st: SortState, estimate: nat -> nat, st': SortState) {
    match st.nextBest
    case None =>
      && st'.stateId == st.stateId && st'.orders == st.orders && st'.gasRemaining == st.gasRemaining
      && st'.builderPayment == st.builderPayment && st'.uncompressedSize == st.uncompressedSize
      && st'.nonces == st.nonces && st'.shouldSeal == st.shouldSeal
    case Some(best) =>
      && st'.stateId == best.newStateId && st'.orders == st.orders + [best.order]
      && st'.gasRemaining + best.gasUsed == st.gasRemaining
      && st'.builderPayment == st.builderPayment + best.builderPayment
      && st'.uncompressedSize == st.uncompressedSize + best.order.rawLen
      && st'.nonces.Get(best.order.sender) == Some(best.order.nonce + 1)
      && (forall a | a != best.order.sender :: st'.nonces.Get(a) == st.nonces.Get(a))
      && (st'.shouldSeal <==> st.shouldSeal || estimate(st'.uncompressedSize) > st.maxBlockSize)
  }

  /** The orders a round sends out: with room for all, exactly those due; otherwise every due one or a full
      round of due ones from lists before it. */
  ghost predicate SendsDue(lists: seq<TxList>, nonces: SortingNonces, baseFee: nat, max: nat, sent: seq<Order>) {
    && |sent| <= max
    && (max >= |lists| ==> forall o :: o in sent <==> exists i :: DueAt(lists, nonces, baseFee, i, o))
    && (forall i, o | DueAt(lists, nonces, baseFee, i, o) && o !in sent ::
          |sent| == max && forall k | 0 <= k < |sent| :: DueBefore(lists, nonces, baseFee, i, sent[k]))
  }

  /** Exactly what was sent is no longer active. */
  ghost predicate Leaves(lists: seq<TxList>, sent: seq<Order>, next: seq<TxList>) {
    forall o :: HasOrder(next, o) <==> HasOrder(lists, o) && o !in sent
  }

  lemma TakeReadySends(lists: seq<TxList>, nonces: SortingNonces, baseFee: nat, max: nat)
    ensures SendsDue(lists, nonces, baseFee, max, TakeReady(lists, nonces, baseFee, max).1)
  {
    var sent := TakeReady(lists, nonces, baseFee, max).1;
    TakeReadyCounts(lists, nonces, baseFee, max);
    if max >= |lists| {
      forall o
        ensures o in sent <==> exists i :: DueAt(lists, nonces, baseFee, i, o)
      {
        TakesExactlyDue(lists, nonces, baseFee, max, o);
      }
    }
    hide TakeReady, DueAt, DueBefore;
    forall i, o | DueAt(lists, nonces, baseFee, i, o) && o !in sent
      ensures |sent| == max && forall k | 0 <= k < |sent| :: DueBefore(lists, nonces, baseFee, i, sent[k])
    {
      DueOrdersTaken(lists, nonces, baseFee, max, i, o);
    }
  }

  lemma ApplyApplies(st: SortState, estimate: nat -> nat)
    requires st.NextBestFits()
    ensures
      var st' := ApplyNext(st, estimate);
      && Applies(st, estimate, st') && st'.nextBest.None?
      && st' == st.(nextBest := None, nonces := st'.nonces, stateId := st'.stateId, orders := st'.orders,
                    gasRemaining := st'.gasRemaining, builderPayment := st'.builderPayment,
                    uncompressedSize := st'.uncompressedSize, shouldSeal := st'.shouldSeal)
  {
  }

  /** What a turn does: if due, it applies the order held and then, unless the engine waits, sends out a round
      on the new state and waits exactly if that is empty; any other turn does nothing. */
  ghost predicate Turns(cfg: Setting, now: System, due: bool, next: System, sent: seq<Order>) {
    if !due then sent == [] && next == now
    else
      && Applies(now.sort, cfg.estimate, next.sort) && next.sort.nextBest.None?
      && next.bag == now.bag + Launch(next.sort.stateId, sent) && next.sort.inFlight == |sent|
      && (if now.sort.waiting then sent == [] && next.sort.waiting && next.sort.lists == now.sort.lists
          else
            && SendsDue(now.sort.lists, next.sort.nonces, now.sort.baseFee, cfg.maxSims, sent)
            && Leaves(now.sort.lists, sent, next.sort.lists)
            && (next.sort.waiting <==> sent == []))
  }

  lemma AppliesFrame(st: SortState, estimate: nat -> nat, st': SortState, lists: seq<TxList>, inFlight: int, waiting: bool)
    requires Applies(st, estimate, st')
    ensures Applies(st, estimate, st'.(lists := lists, inFlight := inFlight, waiting := waiting))
  {
  }

  lemma DueTurns(cfg: Setting, now: System, pastTarget: bool, pastMaxSkip: bool) returns (sent: seq<Order>)
    requires now.sort.NextBestFits() && now.sort.inFlight == 0 && TurnDue(now.sort, pastTarget, pastMaxSkip)
    requires ValidLists(now.sort.lists)
    ensures Turns(cfg, now, true, Step(cfg, now, Turn(pastTarget, pastMaxSkip)), sent)
  {
    var applied := ApplyNext(now.sort, cfg.estimate);
    var (rest, taken) := TakeReady(applied.lists, applied.nonces, applied.baseFee, cfg.maxSims);
    var next := Step(cfg, now, Turn(pastTarget, pastMaxSkip));
    DueTurn(cfg, now, pastTarget, pastMaxSkip);
    ApplyApplies(now.sort, cfg.estimate);
    hide ApplyNext, TakeReady, Step, Applies, SendsDue, Launch, HasOrder, ValidLists;
    forall o
      ensures HasOrder(rest, o) <==> HasOrder(applied.lists, o) && o !in taken
    {
      TakeReadyContents(applied.lists, applied.nonces, applied.baseFee, cfg.maxSims, o);
    }
    assert Leaves(applied.lists, taken, rest);
    hide Leaves;
    assert now.bag + Launch(applied.stateId, []) == now.bag by {
      assert |Launch(applied.stateId, [])| == 0 by { LaunchNone(applied.stateId); }
    }
    if applied.waiting {
      sent := [];
    } else {
      sent := taken;
      TakeReadySends(applied.lists, applied.nonces, applied.baseFee, cfg.maxSims);
      AppliesFrame(now.sort, cfg.estimate, applied, rest, |taken|, |taken| == 0);
    }
  }

  lemma LaunchNone(id: StateId)
    ensures Launch(id, []) == []
  {
  }

  lemma TurnMeaning(cfg: Setting, sys: System, events: seq<Event>, pastTarget: bool, pastMaxSkip: bool)
    returns (sent: seq<Order>)
    requires Start(cfg, sys)
    ensures
      var now := Run(cfg, sys, events);
      Turns(cfg, now, TurnDue(now.sort, pastTarget, pastMaxSkip), Step(cfg, now, Turn(pastTarget, pastMaxSkip)), sent)
  {
    StartInv(cfg, sys);
    RunInv(cfg, sys, events);
    var now := Run(cfg, sys, events);
    assert now.sort.inFlight == CountOn(now.bag, now.sort.stateId) >= 0;
    hide Run, Start, Inv, Turns;
    if TurnDue(now.sort, pastTarget, pastMaxSkip) {
      sent := DueTurns(cfg, now, pastTarget, pastMaxSkip);
    } else {
      sent := [];
      IdleTurn(cfg, now, pastTarget, pastMaxSkip);
    }
  }

  lemma IdleTurn(cfg: Setting, now: System, pastTarget: bool, pastMaxSkip: bool)
    requires now.sort.NextBestFits() && !TurnDue(now.sort, pastTarget, pastMaxSkip)
    ensures Turns(cfg, now, false, Step(cfg, now, Turn(pastTarget, pastMaxSkip)), [])
  {
    LaunchNone(now.sort.stateId);
    assert now.bag + [] == now.bag;
  }

  /** In every run a request makes sealing due and does nothing else. */
  lemma SealSoonMeaning(cfg: Setting, sys: System, events: seq<Event>)
    requires Start(cfg, sys)
    ensures
      var now := Run(cfg, sys, events);
      Step(cfg, now, SealSoon) == now.(sort := now.sort.(shouldSeal := true))
  {
  }
}
