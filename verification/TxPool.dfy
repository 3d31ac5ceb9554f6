/** The transaction pool and its nonce cache, over any sequence of arrivals and blocks. */
module TxPools {
  import opened GatewayTypes
  import opened TxLists
  import Simulation
  import Sorting
  import Runs = SortingRuns

  type Pool = map<Address, TxList>

  datatype PoolState = PoolState(lists: Pool, nonces: Nonces, validBlock: nat, discarded: nat)

  function PutTx(p: PoolState, tx: Order, parentBlock: nat): PoolState {
    if p.validBlock == parentBlock + 1 && tx.sender in p.nonces && tx.nonce < p.nonces[tx.sender]
    then p.(discarded := p.discarded + 1)
    else
      var list := if tx.sender in p.lists then p.lists[tx.sender] else TxList(tx.sender, map[]);
      p.(nonces := if p.validBlock == parentBlock + 1 then p.nonces else map[],
         lists := p.lists[tx.sender := TxList(list.sender, list.txs[tx.nonce := tx])])
  }

  /** The lists a block can start from: those whose first candidate, according to the cache if it
      knows the sender, pays the base fee. */
  predicate Eligible(l: TxList, nonces: Nonces, baseFee: nat) {
    if l.sender in nonces then l.HasTxByNonce(nonces[l.sender], baseFee) else l.HasTxByFee(baseFee)
  }

  function Forwarded(l: TxList, nonces: Nonces): TxList {
    if l.sender in nonces then l.Forward(nonces[l.sender]) else l
  }

  function Snapshot(p: PoolState, baseFee: nat): Pool {
    map a | a in p.lists && Eligible(p.lists[a], p.nonces, baseFee) :: Forwarded(p.lists[a], p.nonces)
  }

  /** Prunes one sender's list to a nonce and drops it when empty. */
  function Prune(lists: Pool, a: Address, nonce: nat): Pool {
    if a !in lists then lists
    else if lists[a].Forward(nonce).txs == map[] then lists - {a}
    else lists[a := lists[a].Forward(nonce)]
  }

  /** Every list pruned to the nonces known; empty ones dropped. */
  function PruneAll(lists: Pool, nonces: Nonces): Pool {
    map a | a in lists && (a in nonces ==> lists[a].Forward(nonces[a]).txs != map[]) ::
      if a in nonces then lists[a].Forward(nonces[a]) else lists[a]
  }

  function Refreshed(p: PoolState, found: SortingNonces): PoolState {
    if p.validBlock == found.validBlock then
      PoolState(PruneAll(PruneAll(p.lists, found.state), found.sorting),
                p.nonces + found.state + found.sorting, p.validBlock + 1, p.discarded)
    else
      PoolState(PruneAll(p.lists, found.AllMerged()), found.AllMerged(), found.validBlock + 1, p.discarded)
  }

  ghost predicate ValidPool(lists: Pool) {
    forall a | a in lists :: lists[a].sender == a && lists[a].Valid()
  }

  class TxPool {
    var lists: Pool
    var nonces: Nonces
    var validBlock: nat
    var discarded: nat

    ghost function View(): PoolState
      reads this
    {
      PoolState(lists, nonces, validBlock, discarded)
    }

    constructor ()
      ensures View() == PoolState(map[], map[], 0, 0)
    {
      lists, nonces, validBlock, discarded := map[], map[], 0, 0;
    }

    method Put(tx: Order, parentBlock: nat)
      requires ValidPool(lists)
      modifies this
      ensures ValidPool(lists) && View() == PutTx(old(View()), tx, parentBlock)
    {
      if validBlock != parentBlock + 1 {
        if nonces != map[] {
          nonces := map[];
        }
      } else if tx.sender in nonces {
        if tx.nonce < nonces[tx.sender] {
          discarded := discarded + 1;
          return;
        }
      }
      var list := if tx.sender in lists then lists[tx.sender] else TxList(tx.sender, map[]);
      lists := lists[tx.sender := list.Put(tx)];
    }

    /** The orders to start block `blockNumber` from, if any; a cache for another block is dropped. */
    method ActiveOrders(blockNumber: nat, baseFee: nat) returns (active: Option<Pool>)
      requires ValidPool(lists)
      modifies this`nonces
      ensures View() == old(View()).(nonces := if validBlock == blockNumber then old(nonces) else map[])
      ensures active.Some? ==> active.value == Snapshot(View(), baseFee) && FullLists(active.value)
      ensures active.None? <==> if validBlock == blockNumber then Snapshot(View(), baseFee) == map[] else lists == map[]
    {
      if validBlock != blockNumber {
        nonces := map[];
        if lists == map[] {
          return None;
        }
        var picked := map a | a in lists && lists[a].HasTxByFee(baseFee) :: lists[a];
        assert picked == Snapshot(View(), baseFee);
        return Some(picked);
      }
      active := ActiveForNonces(baseFee);
    }

    method ActiveForNonces(baseFee: nat) returns (active: Option<Pool>)
      requires ValidPool(lists)
      ensures active.Some? ==> active.value == Snapshot(View(), baseFee) && FullLists(active.value)
      ensures active.None? <==> Snapshot(View(), baseFee) == map[]
    {
      var picked: Pool := map[];
      var rest := lists.Keys;
      while rest != {}
        invariant rest <= lists.Keys && picked.Keys !! rest
        invariant forall a | a in lists && a !in rest :: a in picked <==> Eligible(lists[a], nonces, baseFee)
        invariant forall a | a in picked :: a in lists && picked[a] == Forwarded(lists[a], nonces)
        invariant FullLists(picked)
      {
        var a :| a in rest;
        rest := rest - {a};
        var list := lists[a];
        if a in nonces {
          if list.HasTxByNonce(nonces[a], baseFee) {
            list := list.Forward(nonces[a]);
            assert nonces[a] in list.txs;
            picked := picked[a := list];
          }
        } else if list.HasTxByFee(baseFee) {
          picked := picked[a := list];
        }
      }
      assert picked == Snapshot(View(), baseFee);
      active := if picked == map[] then None else Some(picked);
    }

    /** Learns from a sealed block: merges into a cache for the same block, replaces any other. */
    method UpdateNewBlock(found: SortingNonces)
      requires ValidPool(lists)
      modifies this
      ensures ValidPool(lists) && View() == Refreshed(old(View()), found)
    {
      if validBlock == found.validBlock {
        lists := PruneLoop(lists, found.state);
        lists := PruneLoop(lists, found.sorting);
        nonces := nonces + found.state + found.sorting;
      } else {
        nonces := found.AllMerged();
        validBlock := found.validBlock;
        lists := PruneLoop(lists, nonces);
      }
      validBlock := validBlock + 1;
    }

    method ClearNonces()
      modifies this`nonces
      ensures View() == old(View()).(nonces := map[])
    {
      nonces := map[];
    }
  }

  lemma PruneStep(lists: Pool, done: Nonces, a: Address, nonce: nat)
    requires a !in done
    ensures Prune(PruneAll(lists, done), a, nonce) == PruneAll(lists, done[a := nonce])
  {
    var before, after := PruneAll(lists, done), PruneAll(lists, done[a := nonce]);
    assert forall b | b in lists && b != a :: b in before <==> b in after;
    assert a in lists ==> a in before && before[a] == lists[a];
  }

  /** Visits the cache entries one by one in any order. */
  method PruneLoop(lists: Pool, nonces: Nonces) returns (pruned: Pool)
    requires ValidPool(lists)
    ensures pruned == PruneAll(lists, nonces) && ValidPool(pruned)
  {
    pruned := lists;
    var rest := nonces.Keys;
    ghost var done: Nonces := map[];
    while rest != {}
      invariant done.Keys !! rest && done.Keys + rest == nonces.Keys
      invariant forall a | a in done :: done[a] == nonces[a]
      invariant pruned == PruneAll(lists, done)
    {
      var a :| a in rest;
      PruneStep(lists, done, a, nonces[a]);
      rest := rest - {a};
      pruned := Prune(pruned, a, nonces[a]);
      done := done[a := nonces[a]];
    }
    assert done == nonces;
  }

  // ---- the pool beside the chain ----

  /** `parent` is the latest L2 block and `account` the nonces of user accounts after it (the sender of the
      anchor transaction, which moves in every block, is not one of them). */
  datatype World = World(pool: PoolState, parent: nat, account: Address -> nat)

  datatype Event =
    | Arrive(tx: Order)
    | Build(baseFee: nat)
    | Sealed(found: SortingNonces, after: Address -> nat)
    | Foreign(after: Address -> nat)
    | Reset

  function Step(w: World, ev: Event): World {
    match ev
    case Arrive(tx) => w.(pool := PutTx(w.pool, tx, w.parent))
    case Build(_) => w.(pool := w.pool.(nonces := if w.pool.validBlock == w.parent + 1 then w.pool.nonces else map[]))
    case Sealed(found, after) => World(Refreshed(w.pool, found), w.parent + 1, after)
    case Foreign(after) => w.(parent := w.parent + 1, account := after)
    case Reset => w.(pool := w.pool.(nonces := map[]))
  }

  /** What sorting a block may report: true nonces for its own senders, nonces that were true at some
      point of the block for the rest, and nothing moved that it does not know of. */
  ghost predicate LearnedTruly(found: SortingNonces, before: Address -> nat, after: Address -> nat) {
    && (forall a | a in found.sorting :: found.sorting[a] == after(a))
    && (forall a | a in found.state :: found.state[a] <= after(a) && (a !in found.sorting ==> found.state[a] == after(a)))
    && (forall a | a !in found.sorting :: after(a) == before(a))
    && (forall a :: before(a) <= after(a))
  }

  /** Blocks extend the chain: ours were built on the parent, others only raise nonces. */
  ghost predicate Possible(w: World, ev: Event) {
    match ev
    case Sealed(found, after) => found.validBlock == w.parent + 1 && LearnedTruly(found, w.account, after)
    case Foreign(after) => forall a :: w.account(a) <= after(a)
    case _ => true
  }

  ghost predicate AllPossible(w: World, events: seq<Event>)
    decreases |events|
  {
    events != [] ==> Possible(w, events[0]) && AllPossible(Step(w, events[0]), events[1..])
  }

  function Run(w: World, events: seq<Event>): World
    decreases |events|
  {
    if events == [] then w else Run(Step(w, events[0]), events[1..])
  }

  /** A cache in force for the next block is right about every account it knows. */
  ghost predicate Coherent(w: World) {
    && ValidPool(w.pool.lists)
    && w.pool.validBlock <= w.parent + 1
    && (w.pool.validBlock == w.parent + 1 ==> forall a | a in w.pool.nonces :: w.pool.nonces[a] == w.account(a))
  }

  ghost predicate Holds(lists: Pool, o: Order) {
    o.sender in lists && o.nonce in lists[o.sender].txs && lists[o.sender].txs[o.nonce] == o
  }

  /** Every sorting run reports true nonces. */
  lemma SortingLearnsTruly(cfg: Runs.Setting, sys: Runs.System, events: seq<Runs.Event>)
    requires Runs.Start(cfg, sys)
    ensures
      var st := Runs.Run(cfg, sys, events).sort;
      LearnedTruly(st.nonces, a => cfg.sim.nonce(cfg.anchor, a), a => cfg.sim.nonce(st.stateId, a))
  {
    Runs.StartInv(cfg, sys);
    Runs.RunInv(cfg, sys, events);
    var st := Runs.Run(cfg, sys, events).sort;
    forall a: Address
      ensures cfg.sim.nonce(st.stateId, a) == cfg.sim.nonce(cfg.anchor, a) + Simulation.CountSender(st.orders, a)
    {
      Simulation.ReplayNonces(cfg.sim, st.baseFee, cfg.anchor, cfg.gasLimit, st.orders, a);
    }
  }

  /** Pruning keeps exactly the transactions at or above the known nonces. */
  lemma PruneAllHolds(lists: Pool, nonces: Nonces, o: Order)
    ensures Holds(PruneAll(lists, nonces), o) <==>
            Holds(lists, o) && (o.sender in nonces ==> o.nonce >= nonces[o.sender])
  {
    if Holds(lists, o) && o.sender in nonces && o.nonce >= nonces[o.sender] {
      assert o.nonce in lists[o.sender].Forward(nonces[o.sender]).txs;
    }
  }

  lemma StepCoherent(w: World, ev: Event)
    requires Coherent(w) && Possible(w, ev)
    ensures Coherent(Step(w, ev))
    ensures forall a :: w.account(a) <= Step(w, ev).account(a)
  {
  }

  lemma StepKeeps(w: World, ev: Event, o: Order)
    requires Coherent(w) && Possible(w, ev)
    requires Holds(w.pool.lists, o) || ev == Arrive(o)
    ensures
      || Holds(Step(w, ev).pool.lists, o)
      || o.nonce < Step(w, ev).account(o.sender)
      || (ev.Arrive? && ev.tx != o && ev.tx.sender == o.sender && ev.tx.nonce == o.nonce)
  {
    match ev
    case Sealed(found, after) =>
      if w.pool.validBlock == found.validBlock {
        PruneAllHolds(w.pool.lists, found.state, o);
        PruneAllHolds(PruneAll(w.pool.lists, found.state), found.sorting, o);
      } else {
        PruneAllHolds(w.pool.lists, found.AllMerged(), o);
      }
    case _ =>
  }

  /** Over any run without reorgs the cache stays right for the next block. */
  lemma {:induction false} CacheStaysCoherent(w: World, events: seq<Event>)
    requires Coherent(w) && AllPossible(w, events)
    ensures Coherent(Run(w, events))
    ensures forall a :: w.account(a) <= Run(w, events).account(a)
    decreases |events|
  {
    if events != [] {
      StepCoherent(w, events[0]);
      CacheStaysCoherent(Step(w, events[0]), events[1..]);
    }
  }

  /** A transaction in the pool, or the first to arrive, leaves it only once its account has moved past
      its nonce or another transaction with the same nonce has arrived. */
  lemma {:induction false} DropsOnlySpentOrReplaced(w: World, events: seq<Event>, o: Order)
    requires Coherent(w) && AllPossible(w, events)
    requires Holds(w.pool.lists, o) || (events != [] && events[0] == Arrive(o))
    ensures
      || Holds(Run(w, events).pool.lists, o)
      || o.nonce < Run(w, events).account(o.sender)
      || exists k :: 0 <= k < |events| && events[k].Arrive? && events[k].tx != o
                     && events[k].tx.sender == o.sender && events[k].tx.nonce == o.nonce
    decreases |events|
  {
    if events != [] {
      var w', rest := Step(w, events[0]), events[1..];
      StepCoherent(w, events[0]);
      StepKeeps(w, events[0], o);
      CacheStaysCoherent(w', rest);
      if Holds(w'.pool.lists, o) {
        DropsOnlySpentOrReplaced(w', rest, o);
        if k :| 0 <= k < |rest| && rest[k].Arrive? && rest[k].tx != o
                && rest[k].tx.sender == o.sender && rest[k].tx.nonce == o.nonce {
          assert events[k + 1] == rest[k];
        }
      }
    }
  }

  /** With a cache in force for the block being built, a known sender is in the snapshot exactly when the
      pool has its transaction at the account's nonce and that pays the base fee; its list starts there. */
  lemma SnapshotStartsReady(w: World, baseFee: nat, a: Address)
    requires Coherent(w) && w.pool.validBlock == w.parent + 1 && a in w.pool.nonces
    ensures
      var due := w.account(a);
      && (a in Snapshot(w.pool, baseFee)
          <==> a in w.pool.lists && due in w.pool.lists[a].txs && w.pool.lists[a].txs[due].ValidForBaseFee(baseFee))
      && (a in Snapshot(w.pool, baseFee) ==>
            var list := Snapshot(w.pool, baseFee)[a];
            list.txs != map[] && MinKey(list.txs) == due && list.txs[due] == w.pool.lists[a].txs[due])
  {
    if a in Snapshot(w.pool, baseFee) {
      var list := Snapshot(w.pool, baseFee)[a];
      assert w.account(a) in list.txs;
      assert forall n | n in list.txs :: w.account(a) <= n;
    }
  }
}
