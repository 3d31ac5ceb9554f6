/** Data shared by the gateway's components: orders, simulation results and nonce caches. */
module GatewayTypes {

  /** Values of a u64 are below this. */
  const U64: nat := 0x1_0000_0000_0000_0000

  function Min(a: nat, b: nat): nat {
    if a <= b then a else b
  }

  datatype Option<+T> = None | Some(value: T)

  type Address = nat

  const ZERO_ADDRESS: Address := 0

  /** Identifies one sequenced list of transactions held by the simulator. */
  type StateId = nat

  /** A user transaction with its recovered sender. `id` stands for the transaction hash. */
  datatype Order = Order(sender: Address, nonce: nat, maxFeePerGas: nat, priorityFee: nat, rawLen: nat, id: nat) {
    predicate ValidForBaseFee(baseFee: nat) {
      maxFeePerGas >= baseFee
    }
  }

  datatype InvalidReason =
    | NonceTooLow(tx: nat, state: nat)
    | NonceTooHigh(tx: nat, state: nat)
    | NotEnoughGas
    | CapLessThanBaseFee
    | InsufficientFunds(have: nat, want: nat)
    | StateIdNotFound(missing: nat)
    | Unknown

  datatype ExecutionResult =
    | Success(stateId: StateId, gasUsed: nat, builderPayment: nat)
    | Revert(stateId: StateId, gasUsed: nat, builderPayment: nat)
    | Invalid(reason: InvalidReason)

  /** What a simulation task sends back. */
  datatype SimulatedOrder = SimulatedOrder(originStateId: StateId, result: ExecutionResult, order: Order)

  /** An executed order together with the states before and after it, and what it used and paid. */
  datatype ValidOrder = ValidOrder(
    originStateId: StateId, newStateId: StateId, gasUsed: nat, builderPayment: nat, order: Order)

  type Nonces = map<Address, nat>

  /** Nonces learned while sorting one block: `state` from rejected simulations, `sorting` from
      applied orders. The latter take precedence. */
  datatype SortingNonces = SortingNonces(validBlock: nat, state: Nonces, sorting: Nonces) {
    function Get(a: Address): Option<nat> {
      if a in sorting then Some(sorting[a]) else if a in state then Some(state[a]) else None
    }

    function InsertState(a: Address, n: nat): SortingNonces {
      this.(state := state[a := n])
    }

    function InsertSorting(a: Address, n: nat): SortingNonces {
      this.(sorting := sorting[a := n])
    }

    function AllMerged(): Nonces {
      state + sorting
    }
  }
}
