/** The sorting engine together with its environment: a bag of simulations that answer in any order,
    stale ones from earlier blocks included, and transactions that arrive at any time. */
module SortingRuns {
  import opened GatewayTypes
  import opened TxLists
  import opened Simulation
  import opened Sorting

  datatype Setting = Setting(sim: Simulator, estimate: nat -> nat, maxSims: nat, anchor: StateId, gasLimit: nat)

  datatype Pending = Pending(origin: StateId, order: Order)

  /** `round` records the orders already answered for on the current state id. */
  datatype System = System(sort: SortState, bag: seq<Pending>, round: seq<Order>)

  datatype Event =
    | Reply(i: nat)
    | NewTx(order: Order)
    | Turn(pastTarget: bool, pastMaxSkip: bool)
    | SealSoon

  function Without(bag: seq<Pending>, i: nat): seq<Pending>
    requires i < |bag|
  {
    bag[..i] + bag[i + 1..]
  }

  function Launch(id: StateId, orders: seq<Order>): seq<Pending> {
    seq(|orders|, i requires 0 <= i < |orders| => Pending(id, orders[i]))
  }

  function Step(cfg: Setting, sys: System, ev: Event): (r: System)
    requires sys.sort.NextBestFits()
    ensures r.sort.NextBestFits() && r.sort.baseFee == sys.sort.baseFee
  {
    match ev
    case Reply(i) =>
      if i >= |sys.bag| then sys
      else
        var p := sys.bag[i];
        var answer := SimulatedOrder(p.origin, cfg.sim.exec(p.origin, p.order), p.order);
        System(HandleSim(sys.sort, answer), Without(sys.bag, i),
               if p.origin == sys.sort.stateId then sys.round + [p.order] else sys.round)
    case NewTx(order) => sys.(sort := HandleNewTx(sys.sort, order))
    case SealSoon => sys.(sort := SetShouldSeal(sys.sort))
    case Turn(pastTarget, pastMaxSkip) =>
      var (sort, sent) := NextBatch(sys.sort, cfg.estimate, cfg.maxSims, pastTarget, pastMaxSkip);
      System(sort, sys.bag + Launch(sort.stateId, sent),
             if sys.sort.inFlight > 0 || sys.sort.ShouldSeal(pastTarget, pastMaxSkip) then sys.round else [])
  }

  function Run(cfg: Setting, sys: System, events: seq<Event>): (r: System)
    requires sys.sort.NextBestFits()
    ensures r.sort.NextBestFits() && r.sort.baseFee == sys.sort.baseFee
    decreases |events|
  {
    if events == [] then sys else Run(cfg, Step(cfg, sys, events[0]), events[1..])
  }

  /** A block just anchored, with simulations of earlier states possibly still out. */
  ghost predicate Start(cfg: Setting, sys: System) {
    && WellBehaved(cfg.sim, sys.sort.baseFee)
    && cfg.maxSims > 0
    && sys.sort.stateId == cfg.anchor
    && sys.sort.gasRemaining == cfg.gasLimit
    && sys.sort.orders == [] && sys.sort.builderPayment == 0 && sys.sort.uncompressedSize == 0
    && sys.sort.nonces.state == map[] && sys.sort.nonces.sorting == map[]
    && sys.sort.nextBest == None && sys.sort.inFlight == 0 && !sys.sort.waiting
    && ValidLists(sys.sort.lists)
    && (forall i | 0 <= i < |sys.bag| :: cfg.sim.rank(sys.bag[i].origin) < cfg.sim.rank(cfg.anchor))
    && sys.round == []
  }

  /** The block so far is what executing its orders one by one from the anchor state gives. */
  ghost predicate Refines(cfg: Setting, st: SortState) {
    && st.gasRemaining <= cfg.gasLimit
    && Replay(cfg.sim, cfg.anchor, cfg.gasLimit, st.orders)
       == Some(Totals(st.stateId, cfg.gasLimit - st.gasRemaining, st.builderPayment, st.uncompressedSize))
    && forall i | 0 <= i < |st.orders| :: st.orders[i].ValidForBaseFee(st.baseFee)
  }

  /** Both nonce caches agree with the simulator. */
  ghost predicate NoncesTrue(sim: Simulator, st: SortState) {
    && (forall a :: a in st.nonces.sorting <==> CountSender(st.orders, a) > 0)
    && (forall a | a in st.nonces.sorting :: st.nonces.sorting[a] == sim.nonce(st.stateId, a))
    && (forall a | a in st.nonces.state ::
          && st.nonces.state[a] <= sim.nonce(st.stateId, a)
          && (a !in st.nonces.sorting ==> st.nonces.state[a] == sim.nonce(st.stateId, a)))
  }

  function CountOn(bag: seq<Pending>, id: StateId): nat {
    if bag == [] then 0 else (if bag[0].origin == id then 1 else 0) + CountOn(bag[1..], id)
  }

  /** The counter is the number of simulations out on the current state; no sender has two of them. */
  ghost predicate FlightOk(sim: Simulator, sys: System) {
    && sys.sort.inFlight == CountOn(sys.bag, sys.sort.stateId)
    && (forall i | 0 <= i < |sys.bag| :: sim.rank(sys.bag[i].origin) <= sim.rank(sys.sort.stateId))
    && (forall i | 0 <= i < |sys.bag| && sys.bag[i].origin == sys.sort.stateId ::
          sys.bag[i].order.ValidForBaseFee(sys.sort.baseFee))
    && (forall i, j | 0 <= i < j < |sys.bag| && sys.bag[i].origin == sys.bag[j].origin == sys.sort.stateId ::
          sys.bag[i].order.sender != sys.bag[j].order.sender)
  }

  ghost predicate RoundOk(sys: System) {
    && (forall k | 0 <= k < |sys.round| :: sys.round[k].ValidForBaseFee(sys.sort.baseFee))
    && (forall i, k | 0 <= i < |sys.bag| && 0 <= k < |sys.round| && sys.bag[i].origin == sys.sort.stateId ::
          sys.bag[i].order.sender != sys.round[k].sender)
  }

  /** `o` executed within the gas left but pays no more than the order held; it is that order, or its
      slot is back among the active orders. */
  ghost predicate Beaten(sim: Simulator, st: SortState, o: Order) {
    match Executed(sim, st.stateId, o)
    case None => true
    case Some((_, gas, payment)) =>
      gas > st.gasRemaining
      || (&& st.nextBest.Some?
          && payment <= st.nextBest.value.builderPayment
          && (o == st.nextBest.value.order || HasSlot(st.lists, o.sender, o.nonce)))
  }

  /** The order held came out of this round and is its best payer. */
  ghost predicate BestOk(sim: Simulator, sys: System) {
    && (sys.sort.nextBest.Some? ==>
          var best := sys.sort.nextBest.value;
          && best.order in sys.round
          && best.originStateId == sys.sort.stateId
          && best.gasUsed <= sys.sort.gasRemaining
          && Executed(sim, sys.sort.stateId, best.order) == Some((best.newStateId, best.gasUsed, best.builderPayment)))
    && (forall k | 0 <= k < |sys.round| :: Beaten(sim, sys.sort, sys.round[k]))
  }

  /** Waiting for transactions means there is nothing left to do. */
  ghost predicate WaitingOk(st: SortState) {
    st.waiting ==> st.inFlight == 0 && st.nextBest.None? && NoneReady(st.lists, st.nonces, st.baseFee)
  }

  ghost predicate Inv(cfg: Setting, sys: System) {
    && WellBehaved(cfg.sim, sys.sort.baseFee)
    && cfg.maxSims > 0
    && ValidLists(sys.sort.lists)
    && Refines(cfg, sys.sort)
    && NoncesTrue(cfg.sim, sys.sort)
    && FlightOk(cfg.sim, sys)
    && RoundOk(sys)
    && BestOk(cfg.sim, sys)
    && WaitingOk(sys.sort)
  }

  // ---- counting in the bag ----

  lemma {:induction false} CountOnConcat(a: seq<Pending>, b: seq<Pending>, id: StateId)
    ensures CountOn(a + b, id) == CountOn(a, id) + CountOn(b, id)
  {
    if a == [] {
      assert a + b == b;
    } else {
      assert (a + b)[1..] == a[1..] + b;
      CountOnConcat(a[1..], b, id);
    }
  }

  lemma CountOnWithout(bag: seq<Pending>, i: nat, id: StateId)
    requires i < |bag|
    ensures CountOn(bag, id) == CountOn(Without(bag, i), id) + if bag[i].origin == id then 1 else 0
  {
    assert bag == bag[..i] + ([bag[i]] + bag[i + 1..]);
    CountOnConcat(bag[..i], [bag[i]] + bag[i + 1..], id);
    CountOnConcat(bag[..i], bag[i + 1..], id);
  }

  lemma {:induction false} CountOnNone(bag: seq<Pending>, id: StateId)
    requires forall i | 0 <= i < |bag| :: bag[i].origin != id
    ensures CountOn(bag, id) == 0
  {
    if bag != [] {
      CountOnNone(bag[1..], id);
    }
  }

  lemma {:induction false} CountOnAll(bag: seq<Pending>, id: StateId)
    requires forall i | 0 <= i < |bag| :: bag[i].origin == id
    ensures CountOn(bag, id) == |bag|
  {
    if bag != [] {
      CountOnAll(bag[1..], id);
    }
  }

  lemma {:induction false} CountOnWitness(bag: seq<Pending>, id: StateId) returns (i: nat)
    requires CountOn(bag, id) > 0
    ensures i < |bag| && bag[i].origin == id
  {
    if bag[0].origin == id {
      i := 0;
    } else {
      i := CountOnWitness(bag[1..], id);
      i := i + 1;
    }
  }

  // ---- one step ----

  lemma StartInv(cfg: Setting, sys: System)
    requires Start(cfg, sys)
    ensures Inv(cfg, sys)
  {
    CountOnNone(sys.bag, cfg.anchor);
  }

  lemma WithoutFlight(sim: Simulator, sys: System, i: nat, sort': SortState)
    requires i < |sys.bag| && FlightOk(sim, sys)
    requires sort'.stateId == sys.sort.stateId && sort'.baseFee == sys.sort.baseFee
    requires sort'.inFlight == sys.sort.inFlight - if sys.bag[i].origin == sys.sort.stateId then 1 else 0
    ensures FlightOk(sim, sys.(sort := sort', bag := Without(sys.bag, i)))
  {
    CountOnWithout(sys.bag, i, sys.sort.stateId);
  }

  lemma TeachOk(sim: Simulator, st: SortState, a: Address)
    requires NoncesTrue(sim, st)
    ensures NoncesTrue(sim, st.(nonces := st.nonces.InsertState(a, sim.nonce(st.stateId, a))))
  {
  }

  /** A rejection keeps the caches true. */
  lemma RejectOk(sim: Simulator, st: SortState, order: Order)
    requires ExecutesWell(sim, st.baseFee, st.stateId, order) && sim.exec(st.stateId, order).Invalid?
    requires ValidLists(st.lists) && NoncesTrue(sim, st) && order.ValidForBaseFee(st.baseFee)
    ensures
      var st' := Reject(st, order, sim.exec(st.stateId, order).reason);
      && ValidLists(st'.lists) && NoncesTrue(sim, st')
      && st' == st.(nonces := st'.nonces, lists := st'.lists, shouldSeal := st'.shouldSeal, shouldDiscard := st'.shouldDiscard)
      && (st'.lists == st.lists || st'.lists == DropSender(st.lists, order.sender))
  {
    var reason := sim.exec(st.stateId, order).reason;
    var st' := Reject(st, order, reason);
    RejectShape(st, order, reason);
    assert st'.nonces == st.nonces
        || st'.nonces == st.nonces.InsertState(order.sender, sim.nonce(st.stateId, order.sender));
    hide Reject, DropSender, ValidLists, NoncesTrue, ExecutesWell, HasSlot, Total;
    DropSenderProps(st.lists, order.sender);
    TeachOk(sim, st, order.sender);
    if st'.nonces == st.nonces {
      NoncesFrame(sim, st, st');
    } else {
      NoncesFrame(sim, st.(nonces := st'.nonces), st');
    }
  }

  lemma RejectShape(st: SortState, order: Order, reason: InvalidReason)
    ensures
      var st' := Reject(st, order, reason);
      && st' == st.(nonces := st'.nonces, lists := st'.lists, shouldSeal := st'.shouldSeal,
                    shouldDiscard := st'.shouldDiscard)
      && (st'.lists == st.lists || st'.lists == DropSender(st.lists, order.sender))
  {
    hide DropSender;
  }

  /** Offering a valid order keeps the better payer and puts the other one back. */
  lemma OfferOk(sim: Simulator, st: SortState, v: ValidOrder)
    requires ValidLists(st.lists)
    ensures
      var st' := Offer(st, v);
      && ValidLists(st'.lists)
      && st' == st.(nextBest := st'.nextBest, lists := st'.lists)
      && st'.nextBest.Some?
      && (st'.nextBest == Some(v) || st'.nextBest == st.nextBest)
      && v.builderPayment <= st'.nextBest.value.builderPayment
      && (v == st'.nextBest.value || HasSlot(st'.lists, v.order.sender, v.order.nonce))
      && (st.nextBest.Some? ==>
            && st.nextBest.value.builderPayment <= st'.nextBest.value.builderPayment
            && (st.nextBest == st'.nextBest
                || HasSlot(st'.lists, st.nextBest.value.order.sender, st.nextBest.value.order.nonce)))
      && (forall a, n | HasSlot(st.lists, a, n) :: HasSlot(st'.lists, a, n))
  {
    hide PutOrder, HasSlot, ValidLists, Total;
    PutOrderProps(st.lists, v.order);
    if st.nextBest.Some? {
      PutOrderProps(st.lists, st.nextBest.value.order);
    }
  }

  lemma StaleReplyInv(cfg: Setting, sys: System, i: nat)
    requires Inv(cfg, sys) && i < |sys.bag| && sys.bag[i].origin != sys.sort.stateId
    ensures Inv(cfg, Step(cfg, sys, Reply(i)))
  {
    WithoutFlight(cfg.sim, sys, i, sys.sort);
  }

  lemma CurrentReplyFacts(cfg: Setting, sys: System, i: nat)
    requires Inv(cfg, sys) && i < |sys.bag| && sys.bag[i].origin == sys.sort.stateId
    ensures sys.sort.inFlight > 0 && !sys.sort.waiting
    ensures ExecutesWell(cfg.sim, sys.sort.baseFee, sys.sort.stateId, sys.bag[i].order)
    ensures sys.bag[i].order.ValidForBaseFee(sys.sort.baseFee)
  {
    CountOnWithout(sys.bag, i, sys.sort.stateId);
  }

  lemma RejectedBest(cfg: Setting, sys: System, i: nat, sort': SortState)
    requires i < |sys.bag| && BestOk(cfg.sim, sys) && RoundOk(sys) && ValidLists(sys.sort.lists)
    requires sys.bag[i].origin == sys.sort.stateId
    requires cfg.sim.exec(sys.bag[i].origin, sys.bag[i].order).Invalid?
    requires sort'.stateId == sys.sort.stateId && sort'.gasRemaining == sys.sort.gasRemaining
    requires sort'.nextBest == sys.sort.nextBest
    requires sort'.lists == sys.sort.lists || sort'.lists == DropSender(sys.sort.lists, sys.bag[i].order.sender)
    ensures BestOk(cfg.sim, System(sort', Without(sys.bag, i), sys.round + [sys.bag[i].order]))
  {
    DropSenderProps(sys.sort.lists, sys.bag[i].order.sender);
    forall k | 0 <= k < |sys.round|
      ensures Beaten(cfg.sim, sort', sys.round[k])
    {
      assert Beaten(cfg.sim, sys.sort, sys.round[k]);
      assert sys.round[k].sender != sys.bag[i].order.sender;
    }
  }

  lemma RejectedReplyInv(cfg: Setting, sys: System, i: nat)
    requires Inv(cfg, sys) && i < |sys.bag| && sys.bag[i].origin == sys.sort.stateId
    requires cfg.sim.exec(sys.bag[i].origin, sys.bag[i].order).Invalid?
    ensures Inv(cfg, Step(cfg, sys, Reply(i)))
  {
    CurrentReplyFacts(cfg, sys, i);
    var sys', order := Step(cfg, sys, Reply(i)), sys.bag[i].order;
    var counted := sys.sort.(inFlight := sys.sort.inFlight - 1);
    assert sys' == System(Reject(counted, order, cfg.sim.exec(sys.sort.stateId, order).reason),
                          Without(sys.bag, i), sys.round + [order]);
    NoncesFrame(cfg.sim, sys.sort, counted);
    hide Step, Reject, NoncesTrue, BestOk, RoundOk, ExecutesWell, ValidLists, DropSender;
    RejectOk(cfg.sim, counted, order);
    RejectedBest(cfg, sys, i, sys'.sort);
    hide Inv;
    SettledInv(cfg, sys, i, sys'.sort);
  }

  lemma NoncesFrame(sim: Simulator, st: SortState, st': SortState)
    requires NoncesTrue(sim, st) && st'.nonces == st.nonces && st'.orders == st.orders && st'.stateId == st.stateId
    ensures NoncesTrue(sim, st')
  {
  }

  lemma RoundNext(sys: System, i: nat, sort': SortState)
    requires i < |sys.bag| && sys.bag[i].origin == sys.sort.stateId && RoundOk(sys)
    requires sort'.stateId == sys.sort.stateId && sort'.baseFee == sys.sort.baseFee
    requires sys.bag[i].order.ValidForBaseFee(sys.sort.baseFee)
    requires forall j, k | 0 <= j < k < |sys.bag| && sys.bag[j].origin == sys.bag[k].origin == sys.sort.stateId ::
               sys.bag[j].order.sender != sys.bag[k].order.sender
    ensures RoundOk(System(sort', Without(sys.bag, i), sys.round + [sys.bag[i].order]))
  {
  }

  /** An answer for the current state keeps the invariant if it keeps the caches, the lists and the best. */
  lemma SettledInv(cfg: Setting, sys: System, i: nat, sort': SortState)
    requires Inv(cfg, sys) && i < |sys.bag| && sys.bag[i].origin == sys.sort.stateId
    requires sort' == sys.sort.(inFlight := sys.sort.inFlight - 1, nextBest := sort'.nextBest, lists := sort'.lists,
                                nonces := sort'.nonces, shouldSeal := sort'.shouldSeal,
                                shouldDiscard := sort'.shouldDiscard)
    requires ValidLists(sort'.lists) && NoncesTrue(cfg.sim, sort')
    requires BestOk(cfg.sim, System(sort', Without(sys.bag, i), sys.round + [sys.bag[i].order]))
    ensures Inv(cfg, System(sort', Without(sys.bag, i), sys.round + [sys.bag[i].order]))
  {
    CurrentReplyFacts(cfg, sys, i);
    WithoutFlight(cfg.sim, sys, i, sort');
    RoundNext(sys, i, sort');
    assert Refines(cfg, sort');
    assert FlightOk(cfg.sim, System(sort', Without(sys.bag, i), sys.round + [sys.bag[i].order])) by {
      assert FlightOk(cfg.sim, sys.(sort := sort', bag := Without(sys.bag, i)));
    }
    hide NoncesTrue, BestOk, RoundOk, Refines, ValidLists, FlightOk, WellBehaved;
  }

  /** What accepting changes, and that the round's best stays the best. */
  lemma AcceptedBest(cfg: Setting, sys: System, i: nat)
    requires i < |sys.bag| && sys.bag[i].origin == sys.sort.stateId && sys.sort.NextBestFits()
    requires !cfg.sim.exec(sys.bag[i].origin, sys.bag[i].order).Invalid?
    requires ValidLists(sys.sort.lists) && BestOk(cfg.sim, sys)
    ensures
      var sys' := Step(cfg, sys, Reply(i));
      && ValidLists(sys'.sort.lists) && BestOk(cfg.sim, sys')
      && sys'.sort == sys.sort.(inFlight := sys.sort.inFlight - 1, nextBest := sys'.sort.nextBest, lists := sys'.sort.lists)
  {
    var sys', order := Step(cfg, sys, Reply(i)), sys.bag[i].order;
    var Some((id, gas, payment)) := Executed(cfg.sim, sys.sort.stateId, order);
    var st, v := sys.sort.(inFlight := sys.sort.inFlight - 1), ValidOrder(sys.sort.stateId, id, gas, payment, order);
    assert sys'.round == sys.round + [order];
    assert sys'.sort == if gas > st.gasRemaining then st else Offer(st, v);
    hide Step, HandleSim, Offer, ValidLists, HasSlot, Without;
    OfferOk(cfg.sim, st, v);
    forall k | 0 <= k < |sys'.round|
      ensures Beaten(cfg.sim, sys'.sort, sys'.round[k])
    {
      if k < |sys.round| {
        assert Beaten(cfg.sim, sys.sort, sys.round[k]);
      }
    }
  }

  lemma AcceptedReplyInv(cfg: Setting, sys: System, i: nat)
    requires Inv(cfg, sys) && i < |sys.bag| && sys.bag[i].origin == sys.sort.stateId
    requires !cfg.sim.exec(sys.bag[i].origin, sys.bag[i].order).Invalid?
    ensures Inv(cfg, Step(cfg, sys, Reply(i)))
  {
    AcceptedBest(cfg, sys, i);
    var sys' := Step(cfg, sys, Reply(i));
    NoncesFrame(cfg.sim, sys.sort, sys'.sort);
    assert sys' == System(sys'.sort, Without(sys.bag, i), sys.round + [sys.bag[i].order]);
    hide *;
    SettledInv(cfg, sys, i, sys'.sort);
  }

  lemma SealSoonInv(cfg: Setting, sys: System)
    requires Inv(cfg, sys)
    ensures Inv(cfg, Step(cfg, sys, SealSoon))
  {
    ListsFrame(cfg, sys, SetShouldSeal(sys.sort));
  }

  lemma NewTxInv(cfg: Setting, sys: System, order: Order)
    requires Inv(cfg, sys)
    ensures Inv(cfg, Step(cfg, sys, NewTx(order)))
  {
    var sort' := HandleNewTx(sys.sort, order);
    PutOrderProps(sys.sort.lists, order);
    assert sort' == sys.sort.(lists := sort'.lists, waiting := sort'.waiting, shouldSeal := sort'.shouldSeal);
    assert WaitingOk(sort');
    hide HandleNewTx, PutOrder, ValidLists, HasSlot, Total, WaitingOk, Inv;
    ListsFrame(cfg, sys, sort');
  }

  /** Filling slots and asking for a seal keep the invariant. */
  lemma ListsFrame(cfg: Setting, sys: System, sort': SortState)
    requires Inv(cfg, sys)
    requires sort' == sys.sort.(lists := sort'.lists, waiting := sort'.waiting, shouldSeal := sort'.shouldSeal)
    requires ValidLists(sort'.lists) && WaitingOk(sort')
    requires forall a, n | HasSlot(sys.sort.lists, a, n) :: HasSlot(sort'.lists, a, n)
    ensures Inv(cfg, sys.(sort := sort'))
  {
    hide ValidLists, HasSlot, WaitingOk;
    NoncesFrame(cfg.sim, sys.sort, sort');
    forall k | 0 <= k < |sys.round|
      ensures Beaten(cfg.sim, sort', sys.round[k])
    {
      assert Beaten(cfg.sim, sys.sort, sys.round[k]);
    }
    assert Refines(cfg, sort') && FlightOk(cfg.sim, sys.(sort := sort')) && RoundOk(sys.(sort := sort'));
    hide NoncesTrue, Refines, FlightOk, RoundOk, Beaten;
  }

  lemma ApplyRefines(cfg: Setting, st: SortState, best: ValidOrder)
    requires Refines(cfg, st) && st.nextBest == Some(best) && st.NextBestFits()
    requires Executed(cfg.sim, st.stateId, best.order) == Some((best.newStateId, best.gasUsed, best.builderPayment))
    requires best.order.ValidForBaseFee(st.baseFee)
    ensures Refines(cfg, ApplyNext(st, cfg.estimate))
  {
    assert (st.orders + [best.order])[..|st.orders|] == st.orders;
  }

  lemma ApplyNonces(sim: Simulator, st: SortState, best: ValidOrder, estimate: nat -> nat)
    requires NoncesTrue(sim, st) && st.nextBest == Some(best) && st.NextBestFits()
    requires Advances(sim, st.stateId, best.order, best.newStateId)
    ensures NoncesTrue(sim, ApplyNext(st, estimate))
  {
    var orders := st.orders + [best.order];
    assert orders[..|st.orders|] == st.orders;
    assert forall a: Address ::
        CountSender(orders, a) == CountSender(st.orders, a) + if best.order.sender == a then 1 else 0;
    hide CountSender;
  }

  lemma ApplyFlight(sim: Simulator, sys: System, estimate: nat -> nat)
    requires FlightOk(sim, sys) && sys.sort.inFlight == 0 && sys.sort.NextBestFits()
    requires sys.sort.nextBest.Some? ==> sim.rank(sys.sort.nextBest.value.newStateId) > sim.rank(sys.sort.stateId)
    ensures FlightOk(sim, sys.(sort := ApplyNext(sys.sort, estimate), round := []))
  {
    if sys.sort.nextBest.Some? {
      CountOnNone(sys.bag, sys.sort.nextBest.value.newStateId);
    }
  }

  /** Applying the order held extends the sequential execution by one order. */
  lemma ApplyInv(cfg: Setting, sys: System)
    requires Inv(cfg, sys) && sys.sort.inFlight == 0
    ensures Inv(cfg, System(ApplyNext(sys.sort, cfg.estimate), sys.bag, []))
  {
    var st := sys.sort;
    if st.nextBest.Some? {
      var best := st.nextBest.value;
      assert ExecutesWell(cfg.sim, st.baseFee, st.stateId, best.order);
      ApplyRefines(cfg, st, best);
      ApplyNonces(cfg.sim, st, best, cfg.estimate);
    }
    ApplyFlight(cfg.sim, sys, cfg.estimate);
  }

  lemma SendFlight(sim: Simulator, sys: System, taken: seq<Order>, sort': SortState)
    requires FlightOk(sim, sys) && sys.sort.inFlight == 0
    requires ReadyOrders(taken, sys.sort.lists, sys.sort.nonces, sys.sort.baseFee)
    requires sort'.stateId == sys.sort.stateId && sort'.baseFee == sys.sort.baseFee && sort'.inFlight == |taken|
    ensures FlightOk(sim, System(sort', sys.bag + Launch(sys.sort.stateId, taken), []))
  {
    var id := sys.sort.stateId;
    var sent := Launch(id, taken);
    CountOnConcat(sys.bag, sent, id);
    CountOnAll(sent, id);
    forall i | 0 <= i < |sys.bag|
      ensures sys.bag[i].origin != id
    {
      CountOnWithout(sys.bag, i, id);
    }
    assert forall i | 0 <= i < |taken| :: IsReadyOrder(taken[i], sys.sort.lists, sys.sort.nonces, sys.sort.baseFee);
  }

  /** Sending out the next round. */
  lemma SendInv(cfg: Setting, sys: System)
    requires Inv(cfg, sys) && sys.sort.inFlight == 0 && sys.sort.nextBest.None? && sys.round == [] && !sys.sort.waiting
    ensures
      var (rest, taken) := TakeReady(sys.sort.lists, sys.sort.nonces, sys.sort.baseFee, cfg.maxSims);
      Inv(cfg, System(sys.sort.(lists := rest, inFlight := |taken|, waiting := |taken| == 0),
                       sys.bag + Launch(sys.sort.stateId, taken), []))
  {
    var st := sys.sort;
    var (rest, taken) := TakeReady(st.lists, st.nonces, st.baseFee, cfg.maxSims);
    TakeReadyShape(st.lists, st.nonces, st.baseFee, cfg.maxSims);
    if taken == [] {
      TakeReadyIdle(st.lists, st.nonces, st.baseFee, cfg.maxSims);
    }
    TakeReadyOrders(st.lists, st.nonces, st.baseFee, cfg.maxSims);
    SendFlight(cfg.sim, sys, taken, st.(lists := rest, inFlight := |taken|, waiting := |taken| == 0));
  }

  lemma TurnInv(cfg: Setting, sys: System, pastTarget: bool, pastMaxSkip: bool)
    requires Inv(cfg, sys)
    ensures Inv(cfg, Step(cfg, sys, Turn(pastTarget, pastMaxSkip)))
  {
    var st := sys.sort;
    assert sys.bag + Launch(st.stateId, []) == sys.bag;
    if st.inFlight <= 0 && !st.ShouldSeal(pastTarget, pastMaxSkip) {
      assert st.inFlight == 0;
      ApplyInv(cfg, sys);
      DueTurn(cfg, sys, pastTarget, pastMaxSkip);
      var applied := System(ApplyNext(st, cfg.estimate), sys.bag, []);
      if !applied.sort.waiting {
        SendInv(cfg, applied);
      }
    }
  }

  /** A turn that is due applies the order held and then sends out a round. */
  lemma DueTurn(cfg: Setting, sys: System, pastTarget: bool, pastMaxSkip: bool)
    requires sys.sort.NextBestFits() && sys.sort.inFlight == 0 && !sys.sort.ShouldSeal(pastTarget, pastMaxSkip)
    ensures
      var st := ApplyNext(sys.sort, cfg.estimate);
      var (rest, taken) := TakeReady(st.lists, st.nonces, st.baseFee, cfg.maxSims);
      Step(cfg, sys, Turn(pastTarget, pastMaxSkip))
      == if st.waiting then System(st, sys.bag, [])
         else System(st.(lists := rest, inFlight := |taken|, waiting := |taken| == 0),
                     sys.bag + Launch(st.stateId, taken), [])
  {
    assert sys.bag + Launch(ApplyNext(sys.sort, cfg.estimate).stateId, []) == sys.bag;
  }

  lemma StepInv(cfg: Setting, sys: System, ev: Event)
    requires Inv(cfg, sys)
    ensures Inv(cfg, Step(cfg, sys, ev))
  {
    match ev
    case Reply(i) =>
      if i < |sys.bag| {
        if sys.bag[i].origin != sys.sort.stateId {
          StaleReplyInv(cfg, sys, i);
        } else if cfg.sim.exec(sys.bag[i].origin, sys.bag[i].order).Invalid? {
          RejectedReplyInv(cfg, sys, i);
        } else {
          AcceptedReplyInv(cfg, sys, i);
        }
      }
    case NewTx(order) => NewTxInv(cfg, sys, order);
    case SealSoon => SealSoonInv(cfg, sys);
    case Turn(pastTarget, pastMaxSkip) => TurnInv(cfg, sys, pastTarget, pastMaxSkip);
  }

  lemma {:induction false} RunInv(cfg: Setting, sys: System, events: seq<Event>)
    requires Inv(cfg, sys)
    ensures Inv(cfg, Run(cfg, sys, events))
    decreases |events|
  {
    if events != [] {
      StepInv(cfg, sys, events[0]);
      RunInv(cfg, Step(cfg, sys, events[0]), events[1..]);
    }
  }

  // ---- what the invariant means for every run ----

  /** For any interleaving of answers, arrivals, turns and requests to seal, the block is a plain sequential
      execution: the state id is the one it ends in, and gas, payment and size are its totals. */
  lemma RunsAreSequential(cfg: Setting, sys: System, events: seq<Event>)
    requires Start(cfg, sys)
    ensures
      var st := Run(cfg, sys, events).sort;
      && Replay(cfg.sim, cfg.anchor, cfg.gasLimit, st.orders).Some?
      && var t := Replay(cfg.sim, cfg.anchor, cfg.gasLimit, st.orders).value;
         && t.state == st.stateId
         && t.gas + st.gasRemaining == cfg.gasLimit
         && t.payment == st.builderPayment
         && t.size == st.uncompressedSize
  {
    StartInv(cfg, sys);
    RunInv(cfg, sys, events);
  }

  lemma {:induction false} SenderCounts(orders: seq<Order>, i: nat)
    requires i < |orders|
    ensures CountSender(orders, orders[i].sender) > 0
  {
    var n := |orders| - 1;
    if i < n {
      SenderCounts(orders[..n], i);
    }
  }

  /** Whatever a nonce cache says is the account's nonce on the current state, so each sender's orders
      have consecutive nonces from the anchor on; the cache knows every sender of the block, and every order in
      the block pays the base fee. */
  lemma NonceViewsAgree(cfg: Setting, sys: System, events: seq<Event>)
    requires Start(cfg, sys)
    ensures
      var st := Run(cfg, sys, events).sort;
      && (forall a :: st.nonces.Get(a).Some? ==> st.nonces.Get(a).value == cfg.sim.nonce(st.stateId, a))
      && (forall i | 0 <= i < |st.orders| ::
            && st.orders[i].maxFeePerGas >= sys.sort.baseFee
            && st.nonces.Get(st.orders[i].sender).Some?
            && st.orders[i].nonce
               == cfg.sim.nonce(cfg.anchor, st.orders[i].sender) + CountSender(st.orders[..i], st.orders[i].sender))
  {
    StartInv(cfg, sys);
    RunInv(cfg, sys, events);
    var st := Run(cfg, sys, events).sort;
    forall i | 0 <= i < |st.orders|
      ensures st.nonces.Get(st.orders[i].sender).Some?
      ensures st.orders[i].nonce
              == cfg.sim.nonce(cfg.anchor, st.orders[i].sender) + CountSender(st.orders[..i], st.orders[i].sender)
    {
      SenderCounts(st.orders, i);
      ConsecutiveNonces(cfg.sim, st.baseFee, cfg.anchor, cfg.gasLimit, st.orders, i);
    }
  }

  /** The in-flight counter never underflows: it counts the simulations out on the current state, at
      most one per sender, and the answer handled next is never the fee rejection that the code takes
      to be impossible. */
  lemma RoundAccounting(cfg: Setting, sys: System, events: seq<Event>)
    requires Start(cfg, sys)
    ensures
      var now := Run(cfg, sys, events);
      && now.sort.inFlight == CountOn(now.bag, now.sort.stateId) >= 0
      && (forall i, j | 0 <= i < j < |now.bag| && now.bag[i].origin == now.bag[j].origin == now.sort.stateId ::
            now.bag[i].order.sender != now.bag[j].order.sender)
      && (forall i | 0 <= i < |now.bag| && now.bag[i].origin == now.sort.stateId ::
            && now.sort.inFlight > 0
            && cfg.sim.exec(now.bag[i].origin, now.bag[i].order) != Invalid(CapLessThanBaseFee))
  {
    StartInv(cfg, sys);
    RunInv(cfg, sys, events);
    var now := Run(cfg, sys, events);
    forall i | 0 <= i < |now.bag| && now.bag[i].origin == now.sort.stateId
      ensures now.sort.inFlight > 0 && cfg.sim.exec(now.bag[i].origin, now.bag[i].order) != Invalid(CapLessThanBaseFee)
    {
      CurrentReplyFacts(cfg, now, i);
    }
  }

  /** When a turn ends a round by applying an order, the order is one answered for in that round and
      pays at least as much as any other of the round that executed within the gas left; each of those
      others has its slot back among the active orders. */
  lemma AppliedOrderIsBest(cfg: Setting, sys: System, events: seq<Event>, o: Order)
    requires Start(cfg, sys)
    requires
      var now := Run(cfg, sys, events);
      now.sort.nextBest.Some? && o in now.round && Executed(cfg.sim, now.sort.stateId, o).Some?
    ensures
      var now := Run(cfg, sys, events);
      var best := now.sort.nextBest.value;
      var (_, gas, payment) := Executed(cfg.sim, now.sort.stateId, o).value;
      && best.order in now.round
      && ApplyNext(now.sort, cfg.estimate).orders == now.sort.orders + [best.order]
      && (gas <= now.sort.gasRemaining ==>
            payment <= best.builderPayment && (o == best.order || HasSlot(now.sort.lists, o.sender, o.nonce)))
  {
    StartInv(cfg, sys);
    RunInv(cfg, sys, events);
    var now := Run(cfg, sys, events);
    var k :| 0 <= k < |now.round| && now.round[k] == o;
    assert Beaten(cfg.sim, now.sort, now.round[k]);
  }

  /** Skipping simulation while waiting is sound: nothing is out or held, and no list has a transaction that
      pays at its sender's known nonce, or a lowest one that pays where no nonce is known. */
  lemma WaitingIsIdle(cfg: Setting, sys: System, events: seq<Event>)
    requires Start(cfg, sys) && Run(cfg, sys, events).sort.waiting
    ensures
      var now := Run(cfg, sys, events);
      && (forall i | 0 <= i < |now.bag| :: now.bag[i].origin != now.sort.stateId)
      && now.sort.nextBest.None?
      && (forall i, n | 0 <= i < |now.sort.lists| ::
            var l := now.sort.lists[i];
            !Due(l, now.sort.nonces.Get(l.sender), now.sort.baseFee, n))
  {
    StartInv(cfg, sys);
    RunInv(cfg, sys, events);
    var now := Run(cfg, sys, events);
    forall i | 0 <= i < |now.bag|
      ensures now.bag[i].origin != now.sort.stateId
    {
      CountOnWithout(now.bag, i, now.sort.stateId);
    }
  }

  // ---- termination ----

  /** Orders not yet settled: active, out or held. */
  function Unsettled(st: SortState): int {
    Total(st.lists) + st.inFlight + if st.nextBest.Some? then 1 else 0
  }

  predicate Busy(st: SortState) {
    st.inFlight > 0 || st.nextBest.Some?
  }

  /** An upper bound on the useful steps left. */
  function Fuel(st: SortState, maxSims: nat): int {
    Rounds(st) * (maxSims + 1) + st.inFlight + if st.waiting then 0 else 1
  }

  /** An upper bound on the rounds that can still be started. */
  function Rounds(st: SortState): int {
    Unsettled(st) - if Busy(st) then 1 else 0
  }

  function Turns(events: seq<Event>): nat {
    if events == [] then 0 else (if events[0].Turn? then 1 else 0) + Turns(events[1..])
  }

  /** A step that does something while no transaction arrives: the answer to a simulation of the
      current state, or a turn that is due. */
  ghost predicate Useful(sys: System, ev: Event) {
    match ev
    case Reply(i) => i < |sys.bag| && sys.bag[i].origin == sys.sort.stateId
    case NewTx(_) => false
    case SealSoon => false
    case Turn(pastTarget, pastMaxSkip) =>
      sys.sort.inFlight == 0 && !sys.sort.waiting && !sys.sort.ShouldSeal(pastTarget, pastMaxSkip)
  }

  ghost predicate AllUseful(cfg: Setting, sys: System, events: seq<Event>)
    requires sys.sort.NextBestFits()
    decreases |events|
  {
    events != [] ==> Useful(sys, events[0]) && AllUseful(cfg, Step(cfg, sys, events[0]), events[1..])
  }

  /** A useful answer settles its order or turns it into the one held. */
  lemma ReplySettles(st: SortState, answer: SimulatedOrder)
    requires ValidLists(st.lists) && answer.originStateId == st.stateId
    ensures
      var st' := HandleSim(st, answer);
      && st'.inFlight == st.inFlight - 1
      && Unsettled(st') <= Unsettled(st) - (if Busy(st') then 0 else 1)
      && st'.waiting == st.waiting
  {
    hide ValidLists, Total, Accept, Reject;
    var counted := st.(inFlight := st.inFlight - 1);
    match answer.result
    case Success(id, gas, payment) => AcceptSettles(counted, answer, id, gas, payment);
    case Revert(id, gas, payment) => AcceptSettles(counted, answer, id, gas, payment);
    case Invalid(reason) => RejectSettles(counted, answer.order, reason);
  }

  lemma RejectSettles(st: SortState, order: Order, reason: InvalidReason)
    requires ValidLists(st.lists)
    ensures
      var st' := Reject(st, order, reason);
      && st'.inFlight == st.inFlight && st'.nextBest == st.nextBest && st'.waiting == st.waiting
      && Total(st'.lists) <= Total(st.lists)
  {
    DropSenderProps(st.lists, order.sender);
  }

  lemma AcceptSettles(st: SortState, answer: SimulatedOrder, id: StateId, gas: nat, payment: nat)
    requires ValidLists(st.lists)
    ensures
      var st' := Accept(st, answer, id, gas, payment);
      && st'.inFlight == st.inFlight
      && Unsettled(st') <= Unsettled(st) + (if Busy(st') then 1 else 0)
      && st'.waiting == st.waiting
  {
    hide PutOrder, ValidLists, Total;
    var v := ValidOrder(answer.originStateId, id, gas, payment, answer.order);
    PutOrderTotal(st.lists, v.order);
    if st.nextBest.Some? {
      PutOrderTotal(st.lists, st.nextBest.value.order);
    }
  }

  /** A useful turn settles the order held, and starts a round or begins to wait. */
  lemma TurnSettles(cfg: Setting, sys: System, pastTarget: bool, pastMaxSkip: bool)
    requires Inv(cfg, sys) && Useful(sys, Turn(pastTarget, pastMaxSkip))
    ensures
      var st, st' := sys.sort, Step(cfg, sys, Turn(pastTarget, pastMaxSkip)).sort;
      && Unsettled(st') == Unsettled(st) - (if Busy(st) then 1 else 0)
      && 0 <= st'.inFlight <= cfg.maxSims
      && st'.waiting == (st'.inFlight == 0)
      && st'.nextBest.None?
  {
    var applied := ApplyNext(sys.sort, cfg.estimate);
    TakeReadyCounts(applied.lists, applied.nonces, applied.baseFee, cfg.maxSims);
  }

  /** Progress of one useful step on the bounds above. */
  ghost predicate Burns(st: SortState, st': SortState, maxSims: nat, isTurn: bool) {
    && Fuel(st', maxSims) < Fuel(st, maxSims)
    && Rounds(st') + (if st'.waiting then 0 else 1) + (if isTurn then 1 else 0)
       <= Rounds(st) + if st.waiting then 0 else 1
  }

  lemma Times(a: int, b: int, k: nat)
    requires a <= b
    ensures a * k <= b * k
  {
  }

  lemma ReplyBurns(cfg: Setting, sys: System, i: nat)
    requires Inv(cfg, sys) && Useful(sys, Reply(i))
    ensures Burns(sys.sort, Step(cfg, sys, Reply(i)).sort, cfg.maxSims, false)
  {
    CurrentReplyFacts(cfg, sys, i);
    var p := sys.bag[i];
    ReplySettles(sys.sort, SimulatedOrder(p.origin, cfg.sim.exec(p.origin, p.order), p.order));
    Times(Rounds(Step(cfg, sys, Reply(i)).sort), Rounds(sys.sort), cfg.maxSims + 1);
  }

  /** The facts of `TurnSettles` are enough for progress. */
  lemma SettledBurns(st: SortState, st': SortState, maxSims: nat)
    requires Unsettled(st') == Unsettled(st) - (if Busy(st) then 1 else 0)
    requires st.inFlight == 0 && !st.waiting && st'.nextBest.None?
    requires 0 <= st'.inFlight <= maxSims && st'.waiting == (st'.inFlight == 0)
    ensures Burns(st, st', maxSims, true)
  {
    var r, r', k := Rounds(st), Rounds(st'), maxSims + 1;
    if st'.inFlight > 0 {
      assert r' == r - 1;
      assert (r - 1) * k == r * k - k;
    } else {
      assert r' == r;
    }
  }

  lemma TurnBurns(cfg: Setting, sys: System, pastTarget: bool, pastMaxSkip: bool)
    requires Inv(cfg, sys) && Useful(sys, Turn(pastTarget, pastMaxSkip))
    ensures Burns(sys.sort, Step(cfg, sys, Turn(pastTarget, pastMaxSkip)).sort, cfg.maxSims, true)
  {
    TurnSettles(cfg, sys, pastTarget, pastMaxSkip);
    SettledBurns(sys.sort, Step(cfg, sys, Turn(pastTarget, pastMaxSkip)).sort, cfg.maxSims);
  }

  lemma UsefulStepBurns(cfg: Setting, sys: System, ev: Event)
    requires Inv(cfg, sys) && Useful(sys, ev)
    ensures Burns(sys.sort, Step(cfg, sys, ev).sort, cfg.maxSims, ev.Turn?)
  {
    match ev
    case Reply(i) => ReplyBurns(cfg, sys, i);
    case Turn(pastTarget, pastMaxSkip) => TurnBurns(cfg, sys, pastTarget, pastMaxSkip);
  }

  lemma {:induction false} UsefulRunsEnd(cfg: Setting, sys: System, events: seq<Event>)
    requires Inv(cfg, sys) && AllUseful(cfg, sys, events)
    ensures Inv(cfg, Run(cfg, sys, events))
    ensures |events| <= Fuel(sys.sort, cfg.maxSims)
    ensures Turns(events) <= Rounds(sys.sort) + if sys.sort.waiting then 0 else 1
    decreases |events|
  {
    if events == [] {
      Times(0, Rounds(sys.sort), cfg.maxSims + 1);
    } else {
      UsefulStepBurns(cfg, sys, events[0]);
      StepInv(cfg, sys, events[0]);
      UsefulRunsEnd(cfg, Step(cfg, sys, events[0]), events[1..]);
    }
  }

  /** With no arrivals sorting stops: from the anchor on, the useful steps are bounded by the snapshot's
      size, so are the turns taken, and until the wait flag or a seal is reached one more is possible. */
  lemma SortingTerminates(cfg: Setting, sys: System, events: seq<Event>)
    requires Start(cfg, sys) && AllUseful(cfg, sys, events)
    ensures |events| <= Total(sys.sort.lists) * (cfg.maxSims + 1) + 1
    ensures Turns(events) <= Total(sys.sort.lists) + 1
    ensures
      var now := Run(cfg, sys, events);
      now.sort.waiting || now.sort.ShouldSeal(false, false)
      || (exists i :: Useful(now, Reply(i))) || Useful(now, Turn(false, false))
  {
    StartInv(cfg, sys);
    UsefulRunsEnd(cfg, sys, events);
    var now := Run(cfg, sys, events);
    if now.sort.inFlight > 0 {
      var i := CountOnWitness(now.bag, now.sort.stateId);
      assert Useful(now, Reply(i));
    }
  }
}
