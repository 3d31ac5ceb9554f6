/** The block sorting engine: one step of it as a function, and the object that performs it. */
module Sorting {
  import opened GatewayTypes
  import opened TxLists

  datatype SortState = SortState(
    baseFee: nat,
    stateId: StateId,
    lists: seq<TxList>,
    nonces: SortingNonces,
    orders: seq<Order>,
    uncompressedSize: nat,
    maxBlockSize: nat,
    builderPayment: nat,
    gasRemaining: nat,
    nextBest: Option<ValidOrder>,
    inFlight: int,
    shouldSeal: bool,
    shouldDiscard: bool,
    waiting: bool,
    minOrders: nat)
  {
    /** The order held back was simulated on the current state and fits the gas left. */
    predicate NextBestFits() {
      nextBest.Some? ==> nextBest.value.originStateId == stateId && nextBest.value.gasUsed <= gasRemaining
    }

    predicate ShouldSeal(pastTarget: bool, pastMaxSkip: bool) {
      shouldSeal || (|orders| >= minOrders && pastTarget) || pastMaxSkip
    }
  }

  function HandleNewTx(st: SortState, order: Order): SortState {
    if !order.ValidForBaseFee(st.baseFee) then st
    else if st.nonces.Get(order.sender).Some? && order.nonce < st.nonces.Get(order.sender).value then st
    else st.(waiting := false, lists := PutOrder(st.lists, order))
  }

  function SetShouldSeal(st: SortState): SortState {
    st.(shouldSeal := true)
  }

  function ApplyNext(st: SortState, estimate: nat -> nat): SortState
    requires st.NextBestFits()
  {
    match st.nextBest
    case None => st
    case Some(next) =>
      var size := st.uncompressedSize + next.order.rawLen;
      st.(nextBest := None,
          nonces := st.nonces.InsertSorting(next.order.sender, next.order.nonce + 1),
          stateId := next.newStateId,
          builderPayment := st.builderPayment + next.builderPayment,
          gasRemaining := st.gasRemaining - next.gasUsed,
          uncompressedSize := size,
          orders := st.orders + [next.order],
          shouldSeal := st.shouldSeal || estimate(size) > st.maxBlockSize)
  }

  /** A rejected simulation: teaches the nonce cache, or asks to seal or discard. The order is lost. */
  function Reject(st: SortState, order: Order, reason: InvalidReason): SortState {
    match reason
    case NonceTooLow(_, state) => st.(nonces := st.nonces.InsertState(order.sender, state))
    case NonceTooHigh(_, state) => st.(nonces := st.nonces.InsertState(order.sender, state))
    case NotEnoughGas => st.(shouldSeal := true)
    case CapLessThanBaseFee => st.(nonces := st.nonces.InsertState(order.sender, order.nonce))
    case InsufficientFunds(_, _) =>
      st.(nonces := st.nonces.InsertState(order.sender, order.nonce), lists := DropSender(st.lists, order.sender))
    case StateIdNotFound(_) => st.(shouldDiscard := true)
    case Unknown => st
  }

  /** An order that executed within the gas left: the better payer is held, the other one put back. */
  function Offer(st: SortState, v: ValidOrder): SortState {
    match st.nextBest
    case None => st.(nextBest := Some(v))
    case Some(best) =>
      if best.builderPayment < v.builderPayment
      then st.(nextBest := Some(v), lists := PutOrder(st.lists, best.order))
      else st.(lists := PutOrder(st.lists, v.order))
  }

  function Accept(st: SortState, sim: SimulatedOrder, id: StateId, gas: nat, payment: nat): SortState {
    if gas > st.gasRemaining then st
    else Offer(st, ValidOrder(sim.originStateId, id, gas, payment, sim.order))
  }

  function HandleSim(st: SortState, sim: SimulatedOrder): SortState {
    if sim.originStateId != st.stateId then st
    else
      var st' := st.(inFlight := st.inFlight - 1);
      match sim.result
      case Success(id, gas, payment) => Accept(st', sim, id, gas, payment)
      case Revert(id, gas, payment) => Accept(st', sim, id, gas, payment)
      case Invalid(reason) => Reject(st', sim.order, reason)
  }

  /** The state after a sorting turn, and the orders sent out to be simulated on its `stateId`. */
  function NextBatch(st: SortState, estimate: nat -> nat, maxSims: nat, pastTarget: bool, pastMaxSkip: bool)
    : (SortState, seq<Order>)
    requires st.NextBestFits()
  {
    if st.inFlight > 0 || st.ShouldSeal(pastTarget, pastMaxSkip) then (st, [])
    else
      var applied := ApplyNext(st, estimate);
      if applied.waiting then (applied, [])
      else
        var (rest, taken) := TakeReady(applied.lists, applied.nonces, applied.baseFee, maxSims);
        var inFlight := applied.inFlight + |taken|;
        (applied.(lists := rest, inFlight := inFlight, waiting := inFlight == 0), taken)
  }

  class SortData {
    const blockNumber: nat
    const baseFee: nat
    const maxBlockSize: nat
    const minOrders: nat
    const active: ActiveOrders
    var stateId: StateId
    var nonces: SortingNonces
    var orders: seq<Order>
    var uncompressedSize: nat
    var builderPayment: nat
    var gasRemaining: nat
    var nextBest: Option<ValidOrder>
    var inFlight: int
    var shouldSeal: bool
    var shouldDiscard: bool
    var waiting: bool

    ghost function View(): SortState
      reads this, active
    {
      SortState(baseFee, stateId, active.lists, nonces, orders, uncompressedSize, maxBlockSize, builderPayment,
                gasRemaining, nextBest, inFlight, shouldSeal, shouldDiscard, waiting, minOrders)
    }

    ghost predicate Valid()
      reads this, active
    {
      View().NextBestFits()
    }

    constructor (blockNumber: nat, baseFee: nat, anchorStateId: StateId, active: ActiveOrders, gasLimit: nat,
                 maxBlockSize: nat, minOrders: nat)
      ensures Valid() && this.active == active && this.blockNumber == blockNumber
      ensures View() == SortState(baseFee, anchorStateId, active.lists, SortingNonces(blockNumber, map[], map[]), [],
                                  0, maxBlockSize, 0, gasLimit, None, 0, false, false, false, minOrders)
    {
      this.blockNumber, this.baseFee, this.maxBlockSize, this.minOrders := blockNumber, baseFee, maxBlockSize, minOrders;
      this.active := active;
      stateId, nonces, orders := anchorStateId, SortingNonces(blockNumber, map[], map[]), [];
      uncompressedSize, builderPayment, gasRemaining := 0, 0, gasLimit;
      nextBest, inFlight := None, 0;
      shouldSeal, shouldDiscard, waiting := false, false, false;
    }

    method NewTx(order: Order)
      requires Valid()
      modifies this`waiting, active`lists
      ensures Valid() && View() == HandleNewTx(old(View()), order)
    {
      if !order.ValidForBaseFee(baseFee) {
        return;
      }
      match nonces.Get(order.sender) {
        case Some(stateNonce) =>
          if order.nonce < stateNonce {
            return;
          }
        case None =>
      }
      waiting := false;
      active.Put(order);
    }

    method MaybeApplyNext(estimate: nat -> nat)
      requires Valid()
      modifies this
      ensures Valid() && View() == ApplyNext(old(View()), estimate)
    {
      ghost var after := ApplyNext(View(), estimate);
      match nextBest {
        case None =>
        case Some(next) =>
          var size := uncompressedSize + next.order.rawLen;
          var compressed := estimate(size);
          nextBest := None;
          assert next.originStateId == stateId;
          assert gasRemaining >= next.gasUsed;
          nonces := nonces.InsertSorting(next.order.sender, next.order.nonce + 1);
          stateId := next.newStateId;
          builderPayment := builderPayment + next.builderPayment;
          gasRemaining := gasRemaining - next.gasUsed;
          uncompressedSize := size;
          orders := orders + [next.order];
          shouldSeal := shouldSeal || compressed > maxBlockSize;
      }
    }

    /** Asked for by the sequencer when the pending batch has to leave. */
    method RequestSeal()
      requires Valid()
      modifies `shouldSeal
      ensures Valid() && View() == SetShouldSeal(old(View()))
    {
      shouldSeal := true;
    }

    method SimResult(sim: SimulatedOrder)
      requires Valid()
      modifies this, active`lists
      ensures Valid() && View() == HandleSim(old(View()), sim)
    {
      if sim.originStateId != stateId {
        return;
      }
      inFlight := inFlight - 1;
      var newId, gas, payment;
      match sim.result {
        case Success(i, g, p) => newId, gas, payment := i, g, p;
        case Revert(i, g, p) => newId, gas, payment := i, g, p;
        case Invalid(reason) =>
          match reason {
            case NonceTooLow(_, state) => nonces := nonces.InsertState(sim.order.sender, state);
            case NonceTooHigh(_, state) => nonces := nonces.InsertState(sim.order.sender, state);
            case NotEnoughGas => shouldSeal := true;
            case CapLessThanBaseFee => nonces := nonces.InsertState(sim.order.sender, sim.order.nonce);
            case InsufficientFunds(_, _) =>
              nonces := nonces.InsertState(sim.order.sender, sim.order.nonce);
              active.RemoveSender(sim.order.sender);
            case StateIdNotFound(_) => shouldDiscard := true;
            case Unknown =>
          }
          return;
      }
      if gas > gasRemaining {
        return;
      }
      var putBack: Option<Order>;
      if nextBest.None? || nextBest.value.builderPayment < payment {
        putBack := if nextBest.None? then None else Some(nextBest.value.order);
        nextBest := Some(ValidOrder(sim.originStateId, newId, gas, payment, sim.order));
      } else {
        putBack := Some(sim.order);
      }
      match putBack {
        case Some(tx) => active.Put(tx);
        case None =>
      }
    }

    method MaybeSimNextBatch(estimate: nat -> nat, maxSims: nat, pastTarget: bool, pastMaxSkip: bool)
      returns (sent: seq<Order>)
      requires Valid()
      modifies this, active`lists
      ensures Valid() && (View(), sent) == NextBatch(old(View()), estimate, maxSims, pastTarget, pastMaxSkip)
    {
      sent := [];
      if inFlight > 0 || shouldSeal || (|orders| >= minOrders && pastTarget) || pastMaxSkip {
        return;
      }
      MaybeApplyNext(estimate);
      hide ApplyNext, TakeReady;
      if waiting {
        return;
      }
      sent := active.GetNextBest(maxSims, nonces, baseFee);
      inFlight := inFlight + |sent|;
      if inFlight == 0 {
        waiting := true;
      }
    }
  }
}
