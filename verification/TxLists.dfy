/** Per-sender transaction lists and the mempool snapshot a block is built from. */
module TxLists {
  import opened GatewayTypes

  predicate IsLeast(k: nat, s: set<nat>) {
    k in s && forall j | j in s :: k <= j
  }

  lemma LeastExists(s: set<nat>)
    requires s != {}
    ensures exists k :: IsLeast(k, s)
  {
    var k :| k in s;
    if s == {k} {
      assert IsLeast(k, s);
    } else {
      var rest := s - {k};
      LeastExists(rest);
      var k' :| IsLeast(k', rest);
      var least := if k <= k' then k else k';
      assert s == rest + {k};
      assert IsLeast(least, s);
    }
  }

  /** The smallest key of a nonempty map. */
  function MinKey<T>(m: map<nat, T>): (k: nat)
    requires m != map[]
    ensures IsLeast(k, m.Keys)
  {
    LeastExists(m.Keys);
    var k :| k in m && IsLeast(k, m.Keys);
    k
  }

  /** One sender's transactions, by nonce. */
  datatype TxList = TxList(sender: Address, txs: map<nat, Order>) {
    ghost predicate Valid() {
      forall n | n in txs :: txs[n].nonce == n && txs[n].sender == sender
    }

    function Put(tx: Order): TxList
      requires tx.sender == sender
    {
      this.(txs := txs[tx.nonce := tx])
    }

    predicate HasTxByNonce(nonce: nat, baseFee: nat) {
      nonce in txs && txs[nonce].ValidForBaseFee(baseFee)
    }

    predicate HasTxByFee(baseFee: nat) {
      txs != map[] && txs[MinKey(txs)].ValidForBaseFee(baseFee)
    }

    /** Drops every transaction below `stateNonce`. */
    function Forward(stateNonce: nat): TxList {
      this.(txs := map n | n in txs && n >= stateNonce :: txs[n])
    }

    /** The nonce of the transaction `first_ready` would take, if any. */
    function ReadyNonce(stateNonce: Option<nat>, baseFee: nat): Option<nat> {
      match stateNonce
      case Some(n) => if HasTxByNonce(n, baseFee) then Some(n) else None
      case None => if HasTxByFee(baseFee) then Some(MinKey(txs)) else None
    }

    function Without(nonce: nat): TxList {
      this.(txs := txs - {nonce})
    }

    function Weight(): nat
      requires txs != map[]
    {
      txs[MinKey(txs)].priorityFee
    }
  }

  /** The weight of a list is the priority fee of its lowest nonce. */
  lemma WeightIsOfLowest(l: TxList, n: nat)
    requires n in l.txs && forall k | k in l.txs :: n <= k
    ensures l.Weight() == l.txs[n].priorityFee
  {
    assert IsLeast(MinKey(l.txs), l.txs.Keys);
  }

  ghost predicate ValidLists(lists: seq<TxList>) {
    && (forall i | 0 <= i < |lists| :: lists[i].Valid())
    && (forall i, j | 0 <= i < j < |lists| :: lists[i].sender != lists[j].sender)
  }

  /** Whether some list of `sender` holds a transaction with `nonce`. */
  ghost predicate HasSlot(lists: seq<TxList>, sender: Address, nonce: nat) {
    exists i :: 0 <= i < |lists| && lists[i].sender == sender && nonce in lists[i].txs
  }

  /** The transaction `n` of a list is due: it pays the base fee, and it is at the sender's nonce if that is
      known, or else the sender's lowest. */
  ghost predicate Due(l: TxList, known: Option<nat>, baseFee: nat, n: nat) {
    && n in l.txs && l.txs[n].maxFeePerGas >= baseFee
    && (match known case Some(nonce) => n == nonce case None => forall k | k in l.txs :: n <= k)
  }

  lemma ReadyIsDue(l: TxList, known: Option<nat>, baseFee: nat, n: nat)
    ensures Due(l, known, baseFee, n) <==> l.ReadyNonce(known, baseFee) == Some(n)
  {
    if l.txs != map[] {
      assert IsLeast(MinKey(l.txs), l.txs.Keys);
    }
  }

  /** No list has an order due. */
  ghost predicate NoneReady(lists: seq<TxList>, nonces: SortingNonces, baseFee: nat) {
    forall i, n | 0 <= i < |lists| :: !Due(lists[i], nonces.Get(lists[i].sender), baseFee, n)
  }

  function Total(lists: seq<TxList>): nat {
    if lists == [] then 0 else |lists[0].txs| + Total(lists[1..])
  }

  /** Position of the first list of `sender`, or `|lists|`. */
  function IndexOf(lists: seq<TxList>, sender: Address): (i: nat)
    ensures i <= |lists| && (i < |lists| ==> lists[i].sender == sender)
    ensures forall j | 0 <= j < i :: lists[j].sender != sender
  {
    if lists == [] || lists[0].sender == sender then 0 else 1 + IndexOf(lists[1..], sender)
  }

  function PutOrder(lists: seq<TxList>, order: Order): seq<TxList> {
    var i := IndexOf(lists, order.sender);
    if i < |lists| then lists[i := lists[i].Put(order)]
    else lists + [TxList(order.sender, map[]).Put(order)]
  }

  function DropSender(lists: seq<TxList>, sender: Address): seq<TxList> {
    var i := IndexOf(lists, sender);
    if i < |lists| then lists[..i] + lists[i + 1..] else lists
  }

  /** The lists left and the orders taken when at most `max` lists give up their ready order. */
  function TakeReady(lists: seq<TxList>, nonces: SortingNonces, baseFee: nat, max: nat): (seq<TxList>, seq<Order>) {
    if lists == [] || max == 0 then (lists, [])
    else
      match lists[0].ReadyNonce(nonces.Get(lists[0].sender), baseFee)
      case None =>
        var (rest, taken) := TakeReady(lists[1..], nonces, baseFee, max);
        ([lists[0]] + rest, taken)
      case Some(n) =>
        var (rest, taken) := TakeReady(lists[1..], nonces, baseFee, max - 1);
        ([lists[0].Without(n)] + rest, [lists[0].txs[n]] + taken)
  }

  lemma {:induction false} TotalUpdate(lists: seq<TxList>, i: nat, l: TxList)
    requires i < |lists|
    ensures Total(lists[i := l]) + |lists[i].txs| == Total(lists) + |l.txs|
  {
    if i > 0 {
      assert lists[i := l][1..] == lists[1..][i - 1 := l];
      TotalUpdate(lists[1..], i - 1, l);
    }
  }

  lemma {:induction false} TotalConcat(a: seq<TxList>, b: seq<TxList>)
    ensures Total(a + b) == Total(a) + Total(b)
  {
    if a == [] {
      assert a + b == b;
    } else {
      assert (a + b)[1..] == a[1..] + b;
      TotalConcat(a[1..], b);
    }
  }

  /** Putting an order keeps the lists well formed, keeps every slot, fills the order's own slot
      and adds at most one transaction. */
  lemma PutOrderProps(lists: seq<TxList>, order: Order)
    requires ValidLists(lists)
    ensures ValidLists(PutOrder(lists, order))
    ensures HasSlot(PutOrder(lists, order), order.sender, order.nonce)
    ensures forall a, n | HasSlot(lists, a, n) :: HasSlot(PutOrder(lists, order), a, n)
    ensures Total(PutOrder(lists, order)) <= Total(lists) + 1
  {
    var i := IndexOf(lists, order.sender);
    var lists' := PutOrder(lists, order);
    PutOrderTotal(lists, order);
    assert lists'[i].sender == order.sender && order.nonce in lists'[i].txs;
    forall a, n | HasSlot(lists, a, n)
      ensures HasSlot(lists', a, n)
    {
      var k :| 0 <= k < |lists| && lists[k].sender == a && n in lists[k].txs;
      assert lists'[k].sender == a && n in lists'[k].txs;
    }
  }

  /** Some list of its sender holds this very order. */
  ghost predicate HasOrder(lists: seq<TxList>, o: Order) {
    exists i :: 0 <= i < |lists| && lists[i].sender == o.sender && o.nonce in lists[i].txs && lists[i].txs[o.nonce] == o
  }

  ghost function Senders(lists: seq<TxList>): seq<Address> {
    seq(|lists|, i requires 0 <= i < |lists| => lists[i].sender)
  }

  /** Exactly what is active after a put: the order, and everything but an order of the same sender and nonce;
      a new sender comes last. */
  lemma PutOrderContents(lists: seq<TxList>, order: Order, o: Order)
    requires ValidLists(lists)
    ensures HasOrder(PutOrder(lists, order), o)
            <==> o == order || (HasOrder(lists, o) && !(o.sender == order.sender && o.nonce == order.nonce))
    ensures Senders(PutOrder(lists, order))
            == if order.sender in Senders(lists) then Senders(lists) else Senders(lists) + [order.sender]
  {
    var i, lists' := IndexOf(lists, order.sender), PutOrder(lists, order);
    assert lists'[i].sender == order.sender && lists'[i].txs[order.nonce] == order;
    if i < |lists| {
      assert Senders(lists)[i] == order.sender;
      assert Senders(lists') == Senders(lists);
    } else {
      assert forall k | 0 <= k < |lists| :: Senders(lists)[k] != order.sender;
    }
    if HasOrder(lists', o) && o != order {
      var k :| 0 <= k < |lists'| && lists'[k].sender == o.sender && o.nonce in lists'[k].txs && lists'[k].txs[o.nonce] == o;
      if k == i {
        assert i < |lists| && lists[k].txs[o.nonce] == o && o.nonce != order.nonce;
      } else {
        assert lists'[k] == lists[k] && lists[k].sender != order.sender;
      }
    }
    if HasOrder(lists, o) && !(o.sender == order.sender && o.nonce == order.nonce) {
      var k :| 0 <= k < |lists| && lists[k].sender == o.sender && o.nonce in lists[k].txs && lists[k].txs[o.nonce] == o;
      assert lists'[k].sender == o.sender && o.nonce in lists'[k].txs && lists'[k].txs[o.nonce] == o;
    }
  }

  /** `next` is `lists` with `order` put. */
  ghost predicate Puts(lists: seq<TxList>, order: Order, next: seq<TxList>) {
    && (forall o ::
          HasOrder(next, o)
          <==> o == order || (HasOrder(lists, o) && !(o.sender == order.sender && o.nonce == order.nonce)))
    && Senders(next) == if order.sender in Senders(lists) then Senders(lists) else Senders(lists) + [order.sender]
  }

  lemma PutsOrder(lists: seq<TxList>, order: Order)
    requires ValidLists(lists)
    ensures Puts(lists, order, PutOrder(lists, order))
  {
    forall o
      ensures HasOrder(PutOrder(lists, order), o)
              <==> o == order || (HasOrder(lists, o) && !(o.sender == order.sender && o.nonce == order.nonce))
    {
      PutOrderContents(lists, order, o);
    }
    PutOrderContents(lists, order, order);
  }

  lemma PutOrderTotal(lists: seq<TxList>, order: Order)
    ensures Total(PutOrder(lists, order)) <= Total(lists) + 1
  {
    var i := IndexOf(lists, order.sender);
    if i < |lists| {
      TotalUpdate(lists, i, lists[i].Put(order));
      assert lists[i].Put(order).txs.Keys == lists[i].txs.Keys + {order.nonce};
    } else {
      var added := TxList(order.sender, map[]).Put(order);
      TotalConcat(lists, [added]);
      assert added.txs.Keys == {order.nonce};
    }
  }

  /** Removing a sender loses no other sender's slots. */
  lemma DropSenderProps(lists: seq<TxList>, sender: Address)
    requires ValidLists(lists)
    ensures ValidLists(DropSender(lists, sender))
    ensures forall a, n | a != sender && HasSlot(lists, a, n) :: HasSlot(DropSender(lists, sender), a, n)
    ensures Total(DropSender(lists, sender)) <= Total(lists)
  {
    var i := IndexOf(lists, sender);
    if i < |lists| {
      DropTotal(lists, i);
      hide Total;
      forall a, n | a != sender && HasSlot(lists, a, n)
        ensures HasSlot(DropSender(lists, sender), a, n)
      {
        KeepsOtherSlot(lists, i, a, n);
      }
    }
  }

  /** Removing a sender leaves none of its transactions. */
  lemma DropSenderEmpties(lists: seq<TxList>, sender: Address, nonce: nat)
    requires ValidLists(lists)
    ensures !HasSlot(DropSender(lists, sender), sender, nonce)
  {
    var i := IndexOf(lists, sender);
    var lists' := DropSender(lists, sender);
    forall k | 0 <= k < |lists'|
      ensures lists'[k].sender != sender
    {
      if i < |lists| {
        assert lists'[k] == lists[if k < i then k else k + 1];
      }
    }
  }

  /** Exactly what is active after removing a sender. */
  lemma DropSenderContents(lists: seq<TxList>, sender: Address, o: Order)
    requires ValidLists(lists)
    ensures HasOrder(DropSender(lists, sender), o) <==> HasOrder(lists, o) && o.sender != sender
  {
    var i, lists' := IndexOf(lists, sender), DropSender(lists, sender);
    hide IndexOf;
    if HasOrder(lists', o) {
      var k :| 0 <= k < |lists'| && lists'[k].sender == o.sender && o.nonce in lists'[k].txs && lists'[k].txs[o.nonce] == o;
      assert lists'[k] == lists[if k < i then k else k + 1];
    }
    if HasOrder(lists, o) && o.sender != sender {
      var k :| 0 <= k < |lists| && lists[k].sender == o.sender && o.nonce in lists[k].txs && lists[k].txs[o.nonce] == o;
      assert lists'[if k < i then k else k - 1] == lists[k];
    }
  }

  lemma Regroup<T>(s: seq<T>, i: nat)
    requires i < |s|
    ensures s == s[..i] + ([s[i]] + s[i + 1..])
  {
  }

  lemma TotalOne(l: TxList)
    ensures Total([l]) == |l.txs|
  {
    assert [l][1..] == [];
  }

  lemma DropTotal(lists: seq<TxList>, i: nat)
    requires i < |lists|
    ensures Total(lists) == Total(lists[..i] + lists[i + 1..]) + |lists[i].txs|
  {
    hide Total;
    Regroup(lists, i);
    TotalOne(lists[i]);
    TotalConcat(lists[..i], [lists[i]] + lists[i + 1..]);
    TotalConcat([lists[i]], lists[i + 1..]);
    TotalConcat(lists[..i], lists[i + 1..]);
  }

  lemma KeepsOtherSlot(lists: seq<TxList>, i: nat, a: Address, n: nat)
    requires i < |lists| && lists[i].sender != a && HasSlot(lists, a, n)
    ensures HasSlot(lists[..i] + lists[i + 1..], a, n)
  {
    var k :| 0 <= k < |lists| && lists[k].sender == a && n in lists[k].txs;
    var k' := if k < i then k else k - 1;
    assert (lists[..i] + lists[i + 1..])[k'] == lists[k];
  }

  ghost predicate IsReadyOrder(o: Order, lists: seq<TxList>, nonces: SortingNonces, baseFee: nat) {
    && o.ValidForBaseFee(baseFee)
    && (nonces.Get(o.sender).Some? ==> o.nonce == nonces.Get(o.sender).value)
    && exists i :: 0 <= i < |lists| && lists[i].sender == o.sender
  }

  ghost predicate ReadyOrders(taken: seq<Order>, lists: seq<TxList>, nonces: SortingNonces, baseFee: nat) {
    && (forall i | 0 <= i < |taken| :: IsReadyOrder(taken[i], lists, nonces, baseFee))
    && (forall i, j | 0 <= i < j < |taken| :: taken[i].sender != taken[j].sender)
  }

  /** Picking keeps the lists well formed, with the same senders in the same places. */
  lemma {:induction false} TakeReadyShape(lists: seq<TxList>, nonces: SortingNonces, baseFee: nat, max: nat)
    requires forall i | 0 <= i < |lists| :: lists[i].Valid()
    ensures
      var rest := TakeReady(lists, nonces, baseFee, max).0;
      && |rest| == |lists|
      && forall i | 0 <= i < |lists| :: rest[i].Valid() && rest[i].sender == lists[i].sender
  {
    if lists != [] && max > 0 {
      var ready := lists[0].ReadyNonce(nonces.Get(lists[0].sender), baseFee);
      TakeReadyShape(lists[1..], nonces, baseFee, if ready.None? then max else max - 1);
    }
  }

  /** Picking neither loses nor duplicates, and takes at most `max`. */
  lemma {:induction false} TakeReadyCounts(lists: seq<TxList>, nonces: SortingNonces, baseFee: nat, max: nat)
    ensures
      var (rest, taken) := TakeReady(lists, nonces, baseFee, max);
      Total(rest) + |taken| == Total(lists) && |taken| <= max
  {
    if lists != [] && max > 0 {
      var ready := lists[0].ReadyNonce(nonces.Get(lists[0].sender), baseFee);
      TakeReadyCounts(lists[1..], nonces, baseFee, if ready.None? then max else max - 1);
      if ready.Some? {
        assert lists[0].txs.Keys == lists[0].Without(ready.value).txs.Keys + {ready.value};
      }
    }
  }

  /** Picking takes nothing only if nothing is due. */
  lemma {:induction false} TakeReadyIdle(lists: seq<TxList>, nonces: SortingNonces, baseFee: nat, max: nat)
    requires max > 0 && TakeReady(lists, nonces, baseFee, max).1 == []
    ensures TakeReady(lists, nonces, baseFee, max).0 == lists && NoneReady(lists, nonces, baseFee)
  {
    if lists != [] {
      TakeReadyIdle(lists[1..], nonces, baseFee, max);
      forall i, n | 0 <= i < |lists|
        ensures !Due(lists[i], nonces.Get(lists[i].sender), baseFee, n)
      {
        if i == 0 {
          ReadyIsDue(lists[0], nonces.Get(lists[0].sender), baseFee, n);
        } else {
          assert lists[i] == lists[1..][i - 1];
        }
      }
    }
  }

  /** The orders due, in the lists' order: at most one of each list. */
  ghost function DueOf(lists: seq<TxList>, nonces: SortingNonces, baseFee: nat): seq<Order> {
    if lists == [] then []
    else
      var l, rest := lists[0], DueOf(lists[1..], nonces, baseFee);
      if n :| Due(l, nonces.Get(l.sender), baseFee, n) then [l.txs[n]] + rest else rest
  }

  lemma DueOfHead(lists: seq<TxList>, nonces: SortingNonces, baseFee: nat)
    requires lists != []
    ensures
      var l, rest := lists[0], DueOf(lists[1..], nonces, baseFee);
      DueOf(lists, nonces, baseFee)
      == match l.ReadyNonce(nonces.Get(l.sender), baseFee) case Some(n) => [l.txs[n]] + rest case None => rest
  {
    var l := lists[0];
    var known := nonces.Get(l.sender);
    forall n: nat
      ensures Due(l, known, baseFee, n) <==> l.ReadyNonce(known, baseFee) == Some(n)
    {
      ReadyIsDue(l, known, baseFee, n);
    }
  }

  /** The scan that stops early picks the first `max` of all orders due: the heaviest senders' first. */
  lemma {:induction false} TakeReadyTakesFirst(lists: seq<TxList>, nonces: SortingNonces, baseFee: nat, max: nat)
    ensures
      var due := DueOf(lists, nonces, baseFee);
      TakeReady(lists, nonces, baseFee, max).1 == if max <= |due| then due[..max] else due
  {
    if lists != [] && max > 0 {
      var tail := lists[1..];
      DueOfHead(lists, nonces, baseFee);
      hide DueOf;
      match lists[0].ReadyNonce(nonces.Get(lists[0].sender), baseFee)
      case None => TakeReadyTakesFirst(tail, nonces, baseFee, max);
      case Some(n) =>
        TakeReadyTakesFirst(tail, nonces, baseFee, max - 1);
        var rest := DueOf(tail, nonces, baseFee);
        assert max - 1 <= |rest| ==> ([lists[0].txs[n]] + rest)[..max] == [lists[0].txs[n]] + rest[..max - 1];
    }
  }

  /** What picking leaves of one list: all of it, or all but its due order, which was taken. */
  ghost predicate Left(l: TxList, rest: TxList, nonces: SortingNonces, baseFee: nat, taken: seq<Order>) {
    || rest == l
    || (exists n :: Due(l, nonces.Get(l.sender), baseFee, n)
                    && rest == TxList(l.sender, l.txs - {n}) && l.txs[n] in taken)
  }

  /** Picking loses nothing: every transaction is taken or still in its list. */
  lemma {:induction false} TakeReadyLeaves(lists: seq<TxList>, nonces: SortingNonces, baseFee: nat, max: nat)
    ensures
      var (rest, taken) := TakeReady(lists, nonces, baseFee, max);
      |rest| == |lists| && forall i | 0 <= i < |lists| :: Left(lists[i], rest[i], nonces, baseFee, taken)
  {
    if lists != [] && max > 0 {
      var ready := lists[0].ReadyNonce(nonces.Get(lists[0].sender), baseFee);
      var max' := if ready.None? then max else max - 1;
      TakeReadyLeaves(lists[1..], nonces, baseFee, max');
      var (rest', taken') := TakeReady(lists[1..], nonces, baseFee, max');
      var (rest, taken) := TakeReady(lists, nonces, baseFee, max);
      if ready.Some? {
        ReadyIsDue(lists[0], nonces.Get(lists[0].sender), baseFee, ready.value);
      }
      forall i | 0 < i < |lists|
        ensures Left(lists[i], rest[i], nonces, baseFee, taken)
      {
        assert Left(lists[1..][i - 1], rest'[i - 1], nonces, baseFee, taken');
      }
    }
  }

  /** Whose order it is that the list at `i` has due. */
  ghost predicate DueAt(lists: seq<TxList>, nonces: SortingNonces, baseFee: nat, i: nat, o: Order) {
    i < |lists| && exists n :: Due(lists[i], nonces.Get(lists[i].sender), baseFee, n) && lists[i].txs[n] == o
  }

  ghost predicate DueBefore(lists: seq<TxList>, nonces: SortingNonces, baseFee: nat, i: nat, o: Order) {
    exists j: nat :: j < i && DueAt(lists, nonces, baseFee, j, o)
  }

  /** Every due order is taken, unless `max` orders were and all of them come from lists before it: the
      heaviest senders come first. */
  lemma {:induction false} DueOrdersTaken(lists: seq<TxList>, nonces: SortingNonces, baseFee: nat, max: nat, i: nat, o: Order)
    requires DueAt(lists, nonces, baseFee, i, o)
    ensures
      var taken := TakeReady(lists, nonces, baseFee, max).1;
      || o in taken
      || (|taken| == max && forall k | 0 <= k < |taken| :: DueBefore(lists, nonces, baseFee, i, taken[k]))
  {
    if max > 0 {
      var ready := lists[0].ReadyNonce(nonces.Get(lists[0].sender), baseFee);
      var max' := if ready.None? then max else max - 1;
      if i == 0 {
        var n :| Due(lists[0], nonces.Get(lists[0].sender), baseFee, n) && lists[0].txs[n] == o;
        ReadyIsDue(lists[0], nonces.Get(lists[0].sender), baseFee, n);
      } else {
        assert lists[1..][i - 1] == lists[i];
        DueOrdersTaken(lists[1..], nonces, baseFee, max', i - 1, o);
        var rest, taken := TakeReady(lists[1..], nonces, baseFee, max').1, TakeReady(lists, nonces, baseFee, max).1;
        if o !in taken {
          forall k | 0 <= k < |taken|
            ensures DueBefore(lists, nonces, baseFee, i, taken[k])
          {
            if ready.Some? && k == 0 {
              ReadyIsDue(lists[0], nonces.Get(lists[0].sender), baseFee, ready.value);
              assert DueAt(lists, nonces, baseFee, 0, taken[0]);
            } else {
              var k' := if ready.Some? then k - 1 else k;
              assert taken[k] == rest[k'];
              assert DueBefore(lists[1..], nonces, baseFee, i - 1, rest[k']);
              var j: nat :| j < i - 1 && DueAt(lists[1..], nonces, baseFee, j, rest[k']);
              assert lists[j + 1] == lists[1..][j] && DueAt(lists, nonces, baseFee, j + 1, taken[k]);
            }
          }
        }
      }
    }
  }

  /** Every order taken is due. */
  lemma {:induction false} TakenIsDue(lists: seq<TxList>, nonces: SortingNonces, baseFee: nat, max: nat, k: nat)
    returns (i: nat)
    requires k < |TakeReady(lists, nonces, baseFee, max).1|
    ensures DueAt(lists, nonces, baseFee, i, TakeReady(lists, nonces, baseFee, max).1[k])
  {
    var ready := lists[0].ReadyNonce(nonces.Get(lists[0].sender), baseFee);
    var max' := if ready.None? then max else max - 1;
    if ready.Some? && k == 0 {
      ReadyIsDue(lists[0], nonces.Get(lists[0].sender), baseFee, ready.value);
      i := 0;
    } else {
      i := TakenIsDue(lists[1..], nonces, baseFee, max', if ready.Some? then k - 1 else k);
      i := i + 1;
    }
  }

  lemma {:induction false} DueTakenWithRoom(
    lists: seq<TxList>, nonces: SortingNonces, baseFee: nat, max: nat, i: nat, o: Order)
    requires max >= |lists| && DueAt(lists, nonces, baseFee, i, o)
    ensures o in TakeReady(lists, nonces, baseFee, max).1
  {
    var known := nonces.Get(lists[0].sender);
    var ready := lists[0].ReadyNonce(known, baseFee);
    if i == 0 {
      var n :| Due(lists[0], known, baseFee, n) && lists[0].txs[n] == o;
      ReadyIsDue(lists[0], known, baseFee, n);
    } else {
      assert lists[1..][i - 1] == lists[i];
      DueTakenWithRoom(lists[1..], nonces, baseFee, if ready.None? then max else max - 1, i - 1, o);
    }
  }

  /** With room for one order of every list, exactly the due orders are taken. */
  lemma TakesExactlyDue(lists: seq<TxList>, nonces: SortingNonces, baseFee: nat, max: nat, o: Order)
    requires max >= |lists|
    ensures o in TakeReady(lists, nonces, baseFee, max).1 <==> exists i :: DueAt(lists, nonces, baseFee, i, o)
  {
    var taken := TakeReady(lists, nonces, baseFee, max).1;
    if o in taken {
      var k :| 0 <= k < |taken| && taken[k] == o;
      var i := TakenIsDue(lists, nonces, baseFee, max, k);
    }
    if i :| DueAt(lists, nonces, baseFee, i, o) {
      DueTakenWithRoom(lists, nonces, baseFee, max, i, o);
    }
  }

  /** Every order picked is ready, and no sender gives two. */
  lemma {:induction false} TakeReadyOrders(lists: seq<TxList>, nonces: SortingNonces, baseFee: nat, max: nat)
    requires ValidLists(lists)
    ensures ReadyOrders(TakeReady(lists, nonces, baseFee, max).1, lists, nonces, baseFee)
  {
    if lists != [] && max > 0 {
      var tail := lists[1..];
      var ready := lists[0].ReadyNonce(nonces.Get(lists[0].sender), baseFee);
      var max' := if ready.None? then max else max - 1;
      TakeReadyOrders(tail, nonces, baseFee, max');
      var taken := TakeReady(tail, nonces, baseFee, max').1;
      forall i | 0 <= i < |taken|
        ensures IsReadyOrder(taken[i], lists, nonces, baseFee) && taken[i].sender != lists[0].sender
      {
        var o := taken[i];
        assert IsReadyOrder(o, tail, nonces, baseFee);
        var k :| 0 <= k < |tail| && tail[k].sender == o.sender;
        assert lists[k + 1].sender == o.sender;
      }
      if ready.Some? {
        assert lists[0].Valid();
        assert IsReadyOrder(lists[0].txs[ready.value], lists, nonces, baseFee);
      }
    }
  }

  ghost predicate HasHere(l: TxList, o: Order) {
    l.sender == o.sender && o.nonce in l.txs && l.txs[o.nonce] == o
  }

  lemma HasOrderCons(l: TxList, lists: seq<TxList>, o: Order)
    ensures HasOrder([l] + lists, o) <==> HasHere(l, o) || HasOrder(lists, o)
  {
    var all := [l] + lists;
    if HasHere(l, o) {
      assert all[0].sender == o.sender && o.nonce in all[0].txs && all[0].txs[o.nonce] == o;
    }
    if k :| 0 <= k < |lists| && HasHere(lists[k], o) {
      assert all[k + 1].sender == o.sender && o.nonce in all[k + 1].txs && all[k + 1].txs[o.nonce] == o;
    }
    if k :| 0 <= k < |all| && HasHere(all[k], o) {
      assert k == 0 || (lists[k - 1] == all[k] && lists[k - 1].sender == o.sender && o.nonce in lists[k - 1].txs);
    }
  }

  /** Exactly what is left after picking: everything but what was taken. */
  lemma {:induction false} TakeReadyContents(
    lists: seq<TxList>, nonces: SortingNonces, baseFee: nat, max: nat, o: Order)
    requires ValidLists(lists)
    ensures
      var (rest, taken) := TakeReady(lists, nonces, baseFee, max);
      HasOrder(rest, o) <==> HasOrder(lists, o) && o !in taken
  {
    if lists != [] && max > 0 {
      var l, tail := lists[0], lists[1..];
      var ready := l.ReadyNonce(nonces.Get(l.sender), baseFee);
      var max' := if ready.None? then max else max - 1;
      var (rest', taken') := TakeReady(tail, nonces, baseFee, max');
      TakeReadyContents(tail, nonces, baseFee, max', o);
      TakeReadyOrders(tail, nonces, baseFee, max');
      forall k | 0 <= k < |taken'|
        ensures taken'[k].sender != l.sender
      {
        assert IsReadyOrder(taken'[k], tail, nonces, baseFee);
      }
      assert lists == [l] + tail && l.Valid();
      HasOrderCons(l, tail, o);
      hide HasOrder, ReadyOrders, IsReadyOrder, TakeReady;
      if ready.None? {
        HasOrderCons(l, rest', o);
      } else {
        HasOrderCons(l.Without(ready.value), rest', o);
        assert HasHere(l.Without(ready.value), o) <==> HasHere(l, o) && o != l.txs[ready.value];
        assert o in [l.txs[ready.value]] + taken' <==> o == l.txs[ready.value] || o in taken';
      }
    }
  }

  /** The mempool snapshot a block is built from. */
  class ActiveOrders {
    var lists: seq<TxList>
    /** Number of transactions when the snapshot was taken; later changes do not update it. */
    var numTxs: nat

    /** Takes one list per sender, heaviest first. */
    constructor (txs: map<Address, TxList>)
      requires FullLists(txs)
      ensures IsSnapshot(lists, txs) && numTxs == Total(lists)
    {
      var weight := map a | a in txs :: txs[a].Weight();
      assert weight.Keys == txs.Keys && |weight| == |weight.Keys|;
      var keys := SortByWeight(weight);
      assert forall i | 0 <= i < |keys| :: keys[i] in txs && weight[keys[i]] == txs[keys[i]].Weight();
      var sorted := seq(|keys|, i requires 0 <= i < |keys| => txs[keys[i]]);
      SortedIsSnapshot(txs, weight, keys, sorted);
      lists, numTxs := sorted, Total(sorted);
    }

    method Put(order: Order)
      modifies this`lists
      ensures lists == PutOrder(old(lists), order)
    {
      var i := 0;
      while i < |lists| && lists[i].sender != order.sender
        invariant i <= IndexOf(lists, order.sender)
        invariant lists == old(lists)
      {
        i := i + 1;
      }
      if i < |lists| {
        lists := lists[i := lists[i].Put(order)];
      } else {
        lists := lists + [TxList(order.sender, map[]).Put(order)];
      }
    }

    method RemoveSender(sender: Address)
      modifies this`lists
      ensures lists == DropSender(old(lists), sender)
    {
      var i := 0;
      while i < |lists| && lists[i].sender != sender
        invariant i <= IndexOf(lists, sender)
        invariant lists == old(lists)
      {
        i := i + 1;
      }
      if i < |lists| {
        lists := lists[..i] + lists[i + 1..];
      }
    }

    /** Pops at most `max` ready orders, scanning the lists in order and stopping at the last pick. */
    method GetNextBest(max: nat, nonces: SortingNonces, baseFee: nat) returns (taken: seq<Order>)
      modifies this`lists
      ensures (lists, taken) == TakeReady(old(lists), nonces, baseFee, max)
    {
      ghost var start := lists;
      taken := [];
      var i := 0;
      assert lists[0..] == lists && lists[..0] == [];
      assert Scanned(start, lists, taken, i, nonces, baseFee, max) by {
        var (rest, more) := TakeReady(lists, nonces, baseFee, max);
        assert [] + rest == rest && [] + more == more;
      }
      while i < |lists| && |taken| < max
        invariant 0 <= i <= |lists| && |taken| <= max
        invariant Scanned(start, lists, taken, i, nonces, baseFee, max)
      {
        ScanStep(start, lists, taken, i, nonces, baseFee, max);
        match lists[i].ReadyNonce(nonces.Get(lists[i].sender), baseFee) {
          case None =>
          case Some(n) =>
            taken := taken + [lists[i].txs[n]];
            lists := lists[i := lists[i].Without(n)];
        }
        i := i + 1;
      }
      assert lists[..i] + lists[i..] == lists && taken + [] == taken;
    }
  }

  /** Where a scan that started on `start` stands after visiting `i` lists. */
  ghost predicate Scanned(start: seq<TxList>, lists: seq<TxList>, taken: seq<Order>, i: nat,
                          nonces: SortingNonces, baseFee: nat, max: nat)
    requires i <= |lists| && |taken| <= max
  {
    var (rest, more) := TakeReady(lists[i..], nonces, baseFee, max - |taken|);
    TakeReady(start, nonces, baseFee, max) == (lists[..i] + rest, taken + more)
  }

  lemma ScanStep(start: seq<TxList>, lists: seq<TxList>, taken: seq<Order>, i: nat,
                 nonces: SortingNonces, baseFee: nat, max: nat)
    requires i < |lists| && |taken| < max && Scanned(start, lists, taken, i, nonces, baseFee, max)
    ensures
      match lists[i].ReadyNonce(nonces.Get(lists[i].sender), baseFee)
      case None => Scanned(start, lists, taken, i + 1, nonces, baseFee, max)
      case Some(n) =>
        Scanned(start, lists[i := lists[i].Without(n)], taken + [lists[i].txs[n]], i + 1, nonces, baseFee, max)
  {
    assert lists[i..][0] == lists[i] && lists[i..][1..] == lists[i + 1..];
    match lists[i].ReadyNonce(nonces.Get(lists[i].sender), baseFee)
    case None =>
      var rest := TakeReady(lists[i + 1..], nonces, baseFee, max - |taken|).0;
      assert lists[..i] + ([lists[i]] + rest) == lists[..i + 1] + rest;
    case Some(n) =>
      var lists', o := lists[i := lists[i].Without(n)], lists[i].txs[n];
      assert lists'[i + 1..] == lists[i + 1..];
      var (rest, more) := TakeReady(lists[i + 1..], nonces, baseFee, max - |taken| - 1);
      assert lists[..i] + ([lists'[i]] + rest) == lists'[..i + 1] + rest;
      assert taken + ([o] + more) == (taken + [o]) + more;
  }

  ghost predicate FullLists(txs: map<Address, TxList>) {
    forall a | a in txs :: txs[a].Valid() && txs[a].sender == a && txs[a].txs != map[]
  }

  /** Heaviest-first order of the lists of `txs`, each of them once. */
  ghost predicate IsSnapshot(lists: seq<TxList>, txs: map<Address, TxList>) {
    && |lists| == |txs|
    && ValidLists(lists)
    && (forall i | 0 <= i < |lists| ::
          lists[i].sender in txs && lists[i] == txs[lists[i].sender] && lists[i].txs != map[])
    && (forall i, j | 0 <= i < j < |lists| :: lists[i].Weight() >= lists[j].Weight())
  }

  ghost predicate SortedKeys(keys: seq<Address>, weight: map<Address, nat>, rest: set<Address>) {
    && |keys| + |rest| == |weight|
    && (forall i | 0 <= i < |keys| :: keys[i] in weight && keys[i] !in rest)
    && (forall i, j | 0 <= i < j < |keys| :: keys[i] != keys[j] && weight[keys[i]] >= weight[keys[j]])
    && (forall a | a in rest :: a in weight)
    && (forall i, a | 0 <= i < |keys| && a in rest :: weight[keys[i]] >= weight[a])
  }

  lemma SortedIsSnapshot(txs: map<Address, TxList>, weight: map<Address, nat>, keys: seq<Address>, lists: seq<TxList>)
    requires FullLists(txs) && |weight| == |txs| && SortedKeys(keys, weight, {})
    requires forall i | 0 <= i < |keys| :: keys[i] in txs && weight[keys[i]] == txs[keys[i]].Weight()
    requires |lists| == |keys| && forall i | 0 <= i < |keys| :: lists[i] == txs[keys[i]]
    ensures IsSnapshot(lists, txs)
  {
    forall i | 0 <= i < |lists|
      ensures lists[i].sender == keys[i] && lists[i].Valid() && lists[i].txs != map[]
      ensures lists[i].Weight() == weight[keys[i]]
    {
    }
    hide TxList.Weight, TxList.Valid;
  }

  predicate IsHeaviest(a: Address, weight: map<Address, nat>, rest: set<Address>)
    requires rest <= weight.Keys
  {
    a in rest && forall b | b in rest :: weight[a] >= weight[b]
  }

  lemma HeaviestExists(weight: map<Address, nat>, rest: set<Address>)
    requires rest != {} && rest <= weight.Keys
    ensures exists a :: IsHeaviest(a, weight, rest)
  {
    var a :| a in rest;
    var others := rest - {a};
    assert rest == others + {a};
    if others == {} {
      assert IsHeaviest(a, weight, rest);
    } else {
      HeaviestExists(weight, others);
      var c :| IsHeaviest(c, weight, others);
      assert IsHeaviest(if weight[a] >= weight[c] then a else c, weight, rest);
    }
  }

  /** The library sort of the snapshot: some order of the keys with weights never increasing. */
  method SortByWeight(weight: map<Address, nat>) returns (keys: seq<Address>)
    ensures SortedKeys(keys, weight, {})
  {
    keys := [];
    var rest := weight.Keys;
    while rest != {}
      invariant rest <= weight.Keys
      invariant SortedKeys(keys, weight, rest)
    {
      HeaviestExists(weight, rest);
      var a :| a in rest && IsHeaviest(a, weight, rest);
      keys := keys + [a];
      rest := rest - {a};
    }
  }
}
