/** What every event does to the pool: its exact contents, and what its cache knows. */
module TxPoolSteps {
  import opened GatewayTypes
  import opened TxLists
  import opened TxPools

  /** An arriving transaction is discarded exactly if a cache for the next block knows its nonce to be spent. Any
      other fills its slot and leaves all else, and a cache for another block is forgotten. */
  lemma ArriveMeaning(p: PoolState, tx: Order, parent: nat)
    ensures
      var p', inForce := PutTx(p, tx, parent), p.validBlock == parent + 1;
      if inForce && tx.sender in p.nonces && tx.nonce < p.nonces[tx.sender] then
        p' == p.(discarded := p.discarded + 1)
      else
        && p'.nonces == (if inForce then p.nonces else map[])
        && p'.validBlock == p.validBlock && p'.discarded == p.discarded
        && p'.lists.Keys == p.lists.Keys + {tx.sender}
        && forall o :: Holds(p'.lists, o)
                       <==> o == tx || (Holds(p.lists, o) && !(o.sender == tx.sender && o.nonce == tx.nonce))
  {
    var p' := PutTx(p, tx, parent);
    if p' != p.(discarded := p.discarded + 1) {
      assert Holds(p'.lists, tx);
    }
  }

  /** Some list gives the block this order: the pool has it, and the transaction its sender has to start with pays.
      That is the one at the known nonce, with none before it, or the lowest one of an unknown sender. */
  ghost predicate Offered(p: PoolState, baseFee: nat, o: Order) {
    && Holds(p.lists, o)
    && var txs := p.lists[o.sender].txs;
       if o.sender in p.nonces then
         var due := p.nonces[o.sender];
         o.nonce >= due && due in txs && txs[due].maxFeePerGas >= baseFee
       else
         exists n :: n in txs && (forall k | k in txs :: n <= k) && txs[n].maxFeePerGas >= baseFee
  }

  /** A block starts from exactly the orders offered. */
  lemma SnapshotContents(p: PoolState, baseFee: nat, o: Order)
    requires ValidPool(p.lists)
    ensures Holds(Snapshot(p, baseFee), o) <==> Offered(p, baseFee, o)
  {
    if Holds(p.lists, o) {
      var txs := p.lists[o.sender].txs;
      assert IsLeast(MinKey(txs), txs.Keys);
      assert forall n | n in txs && (forall k | k in txs :: n <= k) :: n == MinKey(txs);
    }
  }

  /** The accounts a sealed block has told about. */
  function Reported(found: SortingNonces): set<Address> {
    found.state.Keys + found.sorting.Keys
  }

  lemma PruneReported(lists: Pool, found: SortingNonces, after: Address -> nat, merged: bool, o: Order)
    requires forall a | a in found.sorting :: found.sorting[a] == after(a)
    requires forall a | a in found.state :: found.state[a] <= after(a) && (a !in found.sorting ==> found.state[a] == after(a))
    ensures
      var pruned := if merged then PruneAll(PruneAll(lists, found.state), found.sorting)
                    else PruneAll(lists, found.AllMerged());
      Holds(pruned, o) <==> Holds(lists, o) && (o.sender in Reported(found) ==> o.nonce >= after(o.sender))
  {
    if merged {
      PruneAllHolds(lists, found.state, o);
      PruneAllHolds(PruneAll(lists, found.state), found.sorting, o);
    } else {
      PruneAllHolds(lists, found.AllMerged(), o);
    }
    hide Holds, PruneAll;
  }

  /** In every run, after a sealed block the cache is in force for the next one and knows every account the block
      told about, and those it knew if it was in force before; of the pool exactly the transactions below the nonces
      told are gone. */
  lemma SealedMeaning(w: World, events: seq<Event>, found: SortingNonces, after: Address -> nat)
    requires Coherent(w) && AllPossible(w, events) && Possible(Run(w, events), Sealed(found, after))
    ensures
      var now := Run(w, events);
      var next := Step(now, Sealed(found, after));
      && next.parent == now.parent + 1 && next.pool.validBlock == next.parent + 1
      && next.pool.discarded == now.pool.discarded
      && next.pool.nonces.Keys
         == Reported(found) + (if now.pool.validBlock == now.parent + 1 then now.pool.nonces.Keys else {})
      && (forall a | a in next.pool.nonces :: next.pool.nonces[a] == after(a))
      && forall o :: Holds(next.pool.lists, o)
                     <==> Holds(now.pool.lists, o) && (o.sender in Reported(found) ==> o.nonce >= after(o.sender))
  {
    CacheStaysCoherent(w, events);
    var now := Run(w, events);
    hide Run, AllPossible;
    StepCoherent(now, Sealed(found, after));
    var next := Step(now, Sealed(found, after));
    hide Holds, PruneAll;
    forall o
      ensures Holds(next.pool.lists, o)
              <==> Holds(now.pool.lists, o) && (o.sender in Reported(found) ==> o.nonce >= after(o.sender))
    {
      PruneReported(now.pool.lists, found, after, now.pool.validBlock == found.validBlock, o);
    }
  }

  // ---- what the cache knows over whole runs ----

  /** While the cache is in force, no transaction of an account it knows is spent. */
  ghost predicate KnownAreUnspent(w: World) {
    w.pool.validBlock == w.parent + 1 ==>
      forall o | Holds(w.pool.lists, o) && o.sender in w.pool.nonces :: o.nonce >= w.account(o.sender)
  }

  lemma StepKeepsUnspent(w: World, ev: Event)
    requires Coherent(w) && Possible(w, ev) && KnownAreUnspent(w)
    ensures KnownAreUnspent(Step(w, ev))
  {
    match ev
    case Sealed(found, after) => SealedMeaning(w, [], found, after);
    case Arrive(tx) => ArriveMeaning(w.pool, tx, w.parent);
    case _ =>
  }

  /** Over every run without reorgs, the pool holds no spent transaction of an account the cache knows. */
  lemma {:induction false} KnownStayUnspent(w: World, events: seq<Event>)
    requires Coherent(w) && AllPossible(w, events) && KnownAreUnspent(w)
    ensures KnownAreUnspent(Run(w, events))
    decreases |events|
  {
    if events != [] {
      StepCoherent(w, events[0]);
      StepKeepsUnspent(w, events[0]);
      hide KnownAreUnspent, Coherent, Possible, Step;
      KnownStayUnspent(Step(w, events[0]), events[1..]);
    }
  }

  ghost predicate NoneEmpty(lists: Pool) {
    forall a | a in lists :: lists[a].txs != map[]
  }

  lemma PutKeepsFull(p: PoolState, tx: Order, parent: nat)
    requires NoneEmpty(p.lists)
    ensures NoneEmpty(PutTx(p, tx, parent).lists)
  {
    var lists := PutTx(p, tx, parent).lists;
    assert lists == p.lists || tx.nonce in lists[tx.sender].txs;
  }

  /** Over every run, reorgs included, a sender without transactions is not in the pool. */
  lemma {:induction false} ListsStayFull(w: World, events: seq<Event>)
    requires NoneEmpty(w.pool.lists)
    ensures NoneEmpty(Run(w, events).pool.lists)
    decreases |events|
  {
    if events != [] {
      if events[0].Arrive? {
        PutKeepsFull(w.pool, events[0].tx, w.parent);
        hide PutTx;
      }
      ListsStayFull(Step(w, events[0]), events[1..]);
    }
  }

  /** Only our own blocks, and nothing that resets the cache. */
  predicate OwnBlocksOnly(events: seq<Event>) {
    forall i | 0 <= i < |events| :: events[i].Arrive? || events[i].Build? || events[i].Sealed?
  }

  /** As long as no other block arrives and the cache is not reset, an account known stays known, with its
      nonce on the latest block. */
  lemma {:induction false} KnownStaysKnown(w: World, events: seq<Event>, a: Address)
    requires Coherent(w) && AllPossible(w, events) && OwnBlocksOnly(events)
    requires w.pool.validBlock == w.parent + 1 && a in w.pool.nonces
    ensures
      var w' := Run(w, events);
      w'.pool.validBlock == w'.parent + 1 && a in w'.pool.nonces && w'.pool.nonces[a] == w'.account(a)
    decreases |events|
  {
    if events != [] {
      StepCoherent(w, events[0]);
      match events[0] {
        case Sealed(found, after) => SealedMeaning(w, [], found, after);
        case Arrive(tx) => ArriveMeaning(w.pool, tx, w.parent);
        case _ =>
      }
      KnownStaysKnown(Step(w, events[0]), events[1..], a);
    }
  }
}
