/** The transaction simulator as a deterministic function, and plain sequential execution on it. */
module Simulation {
  import opened GatewayTypes

  /** `exec` runs one order on a state, `nonce` reads an account's nonce in a state, and `rank` orders
      the states by when the simulator created them. */
  datatype Simulator = Simulator(
    exec: (StateId, Order) -> ExecutionResult,
    nonce: (StateId, Address) -> nat,
    rank: StateId -> nat)

  /** Nonce checks come before fee and funds checks, an executed order (reverted or not) raises only
      its sender's nonce, and its state id is new. */
  ghost predicate ExecutesWell(sim: Simulator, baseFee: nat, s: StateId, o: Order) {
    var current := sim.nonce(s, o.sender);
    match sim.exec(s, o)
    case Success(id, _, _) => Advances(sim, s, o, id)
    case Revert(id, _, _) => Advances(sim, s, o, id)
    case Invalid(reason) =>
      match reason
      case NonceTooLow(tx, state) => tx == o.nonce && state == current && tx < state
      case NonceTooHigh(tx, state) => tx == o.nonce && state == current && tx > state
      case CapLessThanBaseFee => o.nonce == current && !o.ValidForBaseFee(baseFee)
      case InsufficientFunds(_, _) => o.nonce == current
      case _ => true
  }

  ghost predicate Advances(sim: Simulator, s: StateId, o: Order, id: StateId) {
    && o.nonce == sim.nonce(s, o.sender)
    && sim.nonce(id, o.sender) == o.nonce + 1
    && (forall a | a != o.sender :: sim.nonce(id, a) == sim.nonce(s, a))
    && sim.rank(id) > sim.rank(s)
  }

  ghost predicate WellBehaved(sim: Simulator, baseFee: nat) {
    forall s, o :: ExecutesWell(sim, baseFee, s, o)
  }

  /** State, gas, payment and size after executing a list of orders. */
  datatype Totals = Totals(state: StateId, gas: nat, payment: nat, size: nat)

  function Executed(sim: Simulator, s: StateId, o: Order): Option<(StateId, nat, nat)> {
    match sim.exec(s, o)
    case Success(id, gas, payment) => Some((id, gas, payment))
    case Revert(id, gas, payment) => Some((id, gas, payment))
    case Invalid(_) => None
  }

  /** Runs the orders one after the other from `anchor`; fails if one is invalid or the gas used
      exceeds `limit` on the way. */
  function Replay(sim: Simulator, anchor: StateId, limit: nat, orders: seq<Order>): Option<Totals> {
    if orders == [] then Some(Totals(anchor, 0, 0, 0))
    else
      var last := orders[|orders| - 1];
      match Replay(sim, anchor, limit, orders[..|orders| - 1])
      case None => None
      case Some(t) =>
        match Executed(sim, t.state, last)
        case None => None
        case Some((id, gas, payment)) =>
          if t.gas + gas > limit then None
          else Some(Totals(id, t.gas + gas, t.payment + payment, t.size + last.rawLen))
  }

  function CountSender(orders: seq<Order>, a: Address): nat {
    if orders == [] then 0
    else CountSender(orders[..|orders| - 1], a) + if orders[|orders| - 1].sender == a then 1 else 0
  }

  /** After a replay every account's nonce has grown by the number of its orders. */
  lemma {:induction false} ReplayNonces(sim: Simulator, baseFee: nat, anchor: StateId, limit: nat,
          orders: seq<Order>, a: Address)
    requires WellBehaved(sim, baseFee) && Replay(sim, anchor, limit, orders).Some?
    ensures sim.nonce(Replay(sim, anchor, limit, orders).value.state, a) == sim.nonce(anchor, a) + CountSender(orders, a)
  {
    if orders != [] {
      var last, prefix := orders[|orders| - 1], orders[..|orders| - 1];
      ReplayNonces(sim, baseFee, anchor, limit, prefix, a);
      var s := Replay(sim, anchor, limit, prefix).value.state;
      assert ExecutesWell(sim, baseFee, s, last);
    }
  }

  /** The orders one sender has in a block carry consecutive nonces, starting at the account's nonce
      in the anchor state. */
  lemma {:induction false} ConsecutiveNonces(sim: Simulator, baseFee: nat, anchor: StateId, limit: nat,
          orders: seq<Order>, i: nat)
    requires WellBehaved(sim, baseFee) && Replay(sim, anchor, limit, orders).Some? && i < |orders|
    ensures orders[i].nonce == sim.nonce(anchor, orders[i].sender) + CountSender(orders[..i], orders[i].sender)
  {
    var prefix := orders[..|orders| - 1];
    if i < |orders| - 1 {
      ConsecutiveNonces(sim, baseFee, anchor, limit, prefix, i);
      assert prefix[..i] == orders[..i];
    } else {
      ReplayNonces(sim, baseFee, anchor, limit, prefix, orders[i].sender);
      assert ExecutesWell(sim, baseFee, Replay(sim, anchor, limit, prefix).value.state, orders[i]);
    }
  }
}
