/** The sequencer's view of the L1 and L2 chains, kept over streams of blocks. */
module ChainContext {
  import opened GatewayTypes
  import opened TxLists


  datatype Header = Header(number: nat, hash: nat, parentHash: nat, beneficiary: Address)

  /** A block's first transaction: there is none, its calldata is no anchor call, or it anchors to an L1
      block. Its sender is always the golden touch account. */
  datatype AnchorTx = Missing | Undecodable | Anchor(blockId: nat)

  datatype Block = Block(header: Header, anchor: AnchorTx)

  datatype ParentParams = ParentParams(blockNumber: nat, hash: nat, beneficiary: Address)

  function ParentOf(h: Header): ParentParams {
    ParentParams(h.number, h.hash, h.beneficiary)
  }

  datatype Context = Context(
    l2Headers: seq<ParentParams>, toVerify: map<nat, Header>, l1Headers: map<nat, Header>, parentAnchorBlockId: nat)

  const START: Context := Context([], map[], map[], 0)

  // ---- one block at a time ----

  /** Position of the first entry with this number. */
  function Position(headers: seq<ParentParams>, number: nat): (i: Option<nat>)
    ensures i.None? <==> forall k | 0 <= k < |headers| :: headers[k].blockNumber != number
    ensures i.Some? ==> i.value < |headers| && headers[i.value].blockNumber == number
    ensures i.Some? ==> forall k | 0 <= k < i.value :: headers[k].blockNumber != number
  {
    if headers == [] then None
    else if headers[0].blockNumber == number then Some(0)
    else
      match Position(headers[1..], number)
      case None => None
      case Some(i) => Some(i + 1)
  }

  function UpdateParent(c: Context, b: Block): Context {
    match b.anchor
    case Missing => c
    case Undecodable => c.(l2Headers := c.l2Headers + [ParentOf(b.header)])
    case Anchor(id) => c.(l2Headers := c.l2Headers + [ParentOf(b.header)], parentAnchorBlockId := id)
  }

  /** A preconfirmed block arrives; the result says whether it reorged the local chain. */
  function NewPreconf(coinbase: Address, c0: Context, b: Block): (Context, bool) {
    var h := b.header;
    var c := if h.beneficiary == coinbase then c0.(toVerify := c0.toVerify[h.number := h]) else c0;
    if c.l2Headers == [] then (UpdateParent(c, b), false)
    else
      var last := c.l2Headers[|c.l2Headers| - 1];
      if last.blockNumber + 1 == h.number && last.hash == h.parentHash then (UpdateParent(c, b), false)
      else
        match Position(c.l2Headers, h.number)
        case Some(local) =>
          if c.l2Headers[local].hash != h.hash then
            (UpdateParent(c.(l2Headers := c.l2Headers[..local],
                             toVerify := map n | n in c.toVerify && n < h.number :: c.toVerify[n]), b),
             true)
          else (c, false)
        case None =>
          if last.blockNumber < h.number then (UpdateParent(c, b), false) else (c, false)
  }

  /** Drops entries from the front while they are below `number`. */
  function PruneFront(headers: seq<ParentParams>, number: nat): seq<ParentParams> {
    if headers != [] && headers[0].blockNumber < number then PruneFront(headers[1..], number) else headers
  }

  function Verified(toVerify: map<nat, Header>, number: nat): map<nat, Header> {
    if number in toVerify then toVerify - {number}
    else if toVerify != map[] && MinKey(toVerify) < number then map n | n in toVerify && n > number :: toVerify[n]
    else toVerify
  }

  /** A block of a batch posted on L1 arrives. */
  function NewOrigin(c: Context, number: nat): Context {
    c.(toVerify := Verified(c.toVerify, number), l2Headers := PruneFront(c.l2Headers, number))
  }

  /** An L1 block arrives; the bound on what is kept is computed in u64 arithmetic. */
  function NewL1(lag: nat, c: Context, h: Header): Context {
    c.(l1Headers := (map n | n in c.l1Headers && n >= (h.number - lag) % U64 :: c.l1Headers[n])[h.number := h])
  }

  function SafeL1(c: Context): Option<Header> {
    if c.l1Headers == map[] then None else Some(c.l1Headers[MinKey(c.l1Headers)])
  }

  class SequencerContext {
    const coinbase: Address
    const l1SafeLag: nat
    var l2Headers: seq<ParentParams>
    var toVerify: map<nat, Header>
    var l1Headers: map<nat, Header>
    var parentAnchorBlockId: nat

    function View(): Context
      reads this
    {
      Context(l2Headers, toVerify, l1Headers, parentAnchorBlockId)
    }

    constructor (coinbase: Address, l1SafeLag: nat)
      ensures this.coinbase == coinbase && this.l1SafeLag == l1SafeLag
      ensures View() == Context([], map[], map[], 0)
    {
      this.coinbase, this.l1SafeLag := coinbase, l1SafeLag;
      l2Headers, toVerify, l1Headers, parentAnchorBlockId := [], map[], map[], 0;
    }

    method UpdateParentBlockId(b: Block)
      modifies `l2Headers, `parentAnchorBlockId
      ensures View() == UpdateParent(old(View()), b)
    {
      match b.anchor {
        case Missing =>
        case Undecodable =>
          l2Headers := l2Headers + [ParentOf(b.header)];
        case Anchor(id) =>
          l2Headers := l2Headers + [ParentOf(b.header)];
          parentAnchorBlockId := id;
      }
    }

    method NewPreconfL2Block(b: Block) returns (reorg: bool)
      modifies `l2Headers, `parentAnchorBlockId, `toVerify
      ensures (View(), reorg) == NewPreconf(coinbase, old(View()), b)
    {
      var h := b.header;
      if h.beneficiary == coinbase {
        toVerify := toVerify[h.number := h];
      }
      if l2Headers == [] {
        UpdateParentBlockId(b);
        return false;
      }
      var last := l2Headers[|l2Headers| - 1];
      if last.blockNumber + 1 == h.number && last.hash == h.parentHash {
        UpdateParentBlockId(b);
        return false;
      }
      match Position(l2Headers, h.number)
      case Some(local) =>
        if l2Headers[local].hash != h.hash {
          l2Headers := l2Headers[..local];
          toVerify := map n | n in toVerify && n < h.number :: toVerify[n];
          UpdateParentBlockId(b);
          return true;
        }
        return false;
      case None =>
        if last.blockNumber < h.number {
          UpdateParentBlockId(b);
        }
        return false;
    }

    method NewOriginL2Block(number: nat)
      modifies `toVerify, `l2Headers
      ensures View() == NewOrigin(old(View()), number)
    {
      if number in toVerify {
        toVerify := toVerify - {number};
      } else if toVerify != map[] && MinKey(toVerify) < number {
        toVerify := map n | n in toVerify && n > number :: toVerify[n];
      }
      while l2Headers != [] && l2Headers[0].blockNumber < number
        invariant PruneFront(l2Headers, number) == PruneFront(old(l2Headers), number)
        invariant toVerify == Verified(old(toVerify), number)
        decreases |l2Headers|
      {
        l2Headers := l2Headers[1..];
      }
    }

    method NewL1Block(h: Header)
      modifies `l1Headers
      ensures View() == NewL1(l1SafeLag, old(View()), h)
    {
      var from := (h.number - l1SafeLag) % U64;
      l1Headers := map n | n in l1Headers && n >= from :: l1Headers[n];
      l1Headers := l1Headers[h.number := h];
    }
  }

  // ---- invariants over streams ----

  datatype Event = Preconf(block: Block) | Origin(number: nat) | L1(header: Header)

  function Step(coinbase: Address, lag: nat, c: Context, e: Event): Context {
    match e
    case Preconf(b) => NewPreconf(coinbase, c, b).0
    case Origin(number) => NewOrigin(c, number)
    case L1(h) => NewL1(lag, c, h)
  }

  function Run(coinbase: Address, lag: nat, events: seq<Event>): Context {
    if events == [] then START
    else Step(coinbase, lag, Run(coinbase, lag, events[..|events| - 1]), events[|events| - 1])
  }

  /** The highest block known to be posted. */
  function Posted(events: seq<Event>): nat {
    if events == [] then 0 else PostedAfter(Posted(events[..|events| - 1]), events[|events| - 1])
  }

  function PostedAfter(posted: nat, e: Event): nat {
    match e
    case Origin(number) => if number > posted then number else posted
    case _ => posted
  }

  ghost predicate Increasing(headers: seq<ParentParams>) {
    forall i, j | 0 <= i < j < |headers| :: headers[i].blockNumber < headers[j].blockNumber
  }

  function Tip(headers: seq<ParentParams>): ParentParams
    requires headers != []
  {
    headers[|headers| - 1]
  }

  /** Blocks carry an anchor call, the first one is not already posted, and no origin is ahead of the
      last preconfirmed block. */
  ghost predicate Orderly(c: Context, posted: nat, e: Event) {
    match e
    case Preconf(b) => b.anchor.Anchor? && (c.l2Headers == [] ==> b.header.number >= posted)
    case Origin(number) => c.l2Headers != [] ==> number <= Tip(c.l2Headers).blockNumber
    case L1(_) => true
  }

  ghost predicate OrderlyRun(coinbase: Address, lag: nat, events: seq<Event>) {
    forall i | 0 <= i < |events| :: Orderly(Run(coinbase, lag, events[..i]), Posted(events[..i]), events[i])
  }

  /** The blocks behind the local headers. */
  ghost predicate Tracks(c: Context, blocks: seq<Block>) {
    && |blocks| == |c.l2Headers|
    && (forall i | 0 <= i < |blocks| ::
          var h := blocks[i].header;
          c.l2Headers[i] == ParentParams(h.number, h.hash, h.beneficiary) && blocks[i].anchor.Anchor?)
    && (blocks != [] ==> c.parentAnchorBlockId == blocks[|blocks| - 1].anchor.blockId)
  }

  /** A block waiting for verification is ours, is not ahead of the local chain, and is the local block of
      its number if there is one. */
  ghost predicate VerifiesLocal(coinbase: Address, c: Context) {
    && (forall n | n in c.toVerify :: c.toVerify[n].number == n && c.toVerify[n].beneficiary == coinbase)
    && (c.l2Headers == [] ==> c.toVerify == map[])
    && (c.l2Headers != [] ==> forall n | n in c.toVerify :: n <= Tip(c.l2Headers).blockNumber)
    && (forall i | 0 <= i < |c.l2Headers| && c.l2Headers[i].blockNumber in c.toVerify ::
          c.toVerify[c.l2Headers[i].blockNumber].hash == c.l2Headers[i].hash)
  }

  ghost predicate Inv(coinbase: Address, c: Context, posted: nat) {
    && Increasing(c.l2Headers)
    && (c.l2Headers != [] ==> c.l2Headers[0].blockNumber >= posted)
    && VerifiesLocal(coinbase, c)
  }

  /** The chain has another block of this number. */
  ghost predicate HasOther(headers: seq<ParentParams>, h: Header) {
    exists i :: 0 <= i < |headers| && headers[i].blockNumber == h.number && headers[i].hash != h.hash
  }

  lemma SameNumber(headers: seq<ParentParams>, i: nat, j: nat)
    requires Increasing(headers) && i < |headers| && j < |headers|
    requires headers[i].blockNumber == headers[j].blockNumber
    ensures i == j
  {
  }

  lemma PositionMeaning(headers: seq<ParentParams>, h: Header)
    requires Increasing(headers)
    ensures
      var at := Position(headers, h.number);
      && (at.Some? ==> h.number <= Tip(headers).blockNumber)
      && (HasOther(headers, h) <==> at.Some? && headers[at.value].hash != h.hash)
  {
    var at := Position(headers, h.number);
    if at.Some? {
      forall i | 0 <= i < |headers| && headers[i].blockNumber == h.number
        ensures i == at.value
      {
        SameNumber(headers, i, at.value);
      }
      assert at.value < |headers| - 1 ==> headers[at.value].blockNumber < Tip(headers).blockNumber;
    }
  }

  /** The chain after a new block, on an increasing chain: extended, cut back to below the block and
      extended, or unchanged, whatever the block's parent hash says. */
  ghost predicate Extends(headers: seq<ParentParams>, b: Block, reorg: bool, next: seq<ParentParams>) {
    if headers == [] || b.header.number > Tip(headers).blockNumber then next == headers + [ParentOf(b.header)]
    else if reorg then
      && next != [] && |next| <= |headers|
      && Tip(next) == ParentOf(b.header)
      && next[..|next| - 1] == headers[..|next| - 1]
      && headers[|next| - 1].blockNumber == b.header.number
    else next == headers
  }

  /** On an increasing chain a block reorgs exactly when the chain has another block of its number; the new
      block is then the last one and all higher entries are gone. */
  lemma PreconfMeaning(coinbase: Address, c: Context, b: Block)
    requires Increasing(c.l2Headers) && b.anchor.Anchor?
    ensures
      var (c', reorg) := NewPreconf(coinbase, c, b);
      && (reorg <==> HasOther(c.l2Headers, b.header))
      && Extends(c.l2Headers, b, reorg, c'.l2Headers)
      && c'.parentAnchorBlockId == if c'.l2Headers == c.l2Headers then c.parentAnchorBlockId else b.anchor.blockId
  {
    PositionMeaning(c.l2Headers, b.header);
    PreconfHeaders(coinbase, c, b);
    hide HasOther, Increasing, NewPreconf, Position;
    var at, next := Position(c.l2Headers, b.header.number), NewPreconf(coinbase, c, b).0.l2Headers;
    if at.Some? && c.l2Headers[at.value].hash != b.header.hash {
      assert next[..|next| - 1] == c.l2Headers[..at.value];
    }
  }

  /** The chain after a new block in terms of where its number is found; the parent hash plays no part. */
  lemma PreconfHeaders(coinbase: Address, c: Context, b: Block)
    requires b.anchor.Anchor?
    requires Position(c.l2Headers, b.header.number).Some? ==> b.header.number <= Tip(c.l2Headers).blockNumber
    ensures
      var (c', reorg) := NewPreconf(coinbase, c, b);
      var at, parent := Position(c.l2Headers, b.header.number), ParentOf(b.header);
      var above := c.l2Headers == [] || b.header.number > Tip(c.l2Headers).blockNumber;
      && (reorg <==> at.Some? && c.l2Headers[at.value].hash != b.header.hash)
      && c'.l2Headers == (if above then c.l2Headers + [parent]
                          else if reorg then c.l2Headers[..at.value] + [parent]
                          else c.l2Headers)
      && c'.parentAnchorBlockId == if above || reorg then b.anchor.blockId else c.parentAnchorBlockId
  {
    hide Position;
  }

  /** What waits for verification after a preconfirmed block: a reorg drops everything from its number on,
      and so drops the reorging block itself even when it is ours. */
  lemma PreconfVerifies(coinbase: Address, c: Context, b: Block)
    ensures
      var (c', reorg) := NewPreconf(coinbase, c, b);
      var n := b.header.number;
      && (forall k :: k in c'.toVerify <==>
            if reorg then k in c.toVerify && k < n
            else k in c.toVerify || (k == n && b.header.beneficiary == coinbase))
      && (forall k | k in c'.toVerify ::
            c'.toVerify[k] == if k == n && b.header.beneficiary == coinbase then b.header else c.toVerify[k])
      && (reorg ==> n !in c'.toVerify)
  {
  }

  ghost predicate OnChain(headers: seq<ParentParams>, number: nat) {
    exists i :: 0 <= i < |headers| && headers[i].blockNumber == number
  }

  /** A block of ours waits for verification off the chain exactly if it came late: below the last block, at a
      number the chain does not have. */
  lemma LateBlocksWait(coinbase: Address, c: Context, b: Block)
    requires Increasing(c.l2Headers) && b.anchor.Anchor? && b.header.beneficiary == coinbase
    ensures
      var c', n := NewPreconf(coinbase, c, b).0, b.header.number;
      n in c'.toVerify && !OnChain(c'.l2Headers, n)
      <==> c.l2Headers != [] && n < Tip(c.l2Headers).blockNumber && !OnChain(c.l2Headers, n)
  {
    var c', n := NewPreconf(coinbase, c, b).0, b.header.number;
    PreconfMeaning(coinbase, c, b);
    PreconfVerifies(coinbase, c, b);
    PositionMeaning(c.l2Headers, b.header);
    hide NewPreconf;
    if c.l2Headers == [] || n > Tip(c.l2Headers).blockNumber {
      assert c'.l2Headers[|c.l2Headers|].blockNumber == n;
    } else {
      assert n == Tip(c.l2Headers).blockNumber ==> c.l2Headers[|c.l2Headers| - 1].blockNumber == n;
      assert Position(c.l2Headers, n).Some? ==> OnChain(c.l2Headers, n);
    }
  }

  /** Pruning keeps exactly the headers at or above the number, and empties the chain exactly when the
      number is ahead of its last block. */
  lemma {:induction false} PruneKeeps(headers: seq<ParentParams>, number: nat) returns (cut: nat)
    requires Increasing(headers)
    ensures cut <= |headers| && PruneFront(headers, number) == headers[cut..]
    ensures forall i | 0 <= i < |headers| :: i < cut <==> headers[i].blockNumber < number
    ensures headers != [] ==>
      (PruneFront(headers, number) == [] <==> headers[|headers| - 1].blockNumber < number)
  {
    if headers != [] && headers[0].blockNumber < number {
      var rest := PruneKeeps(headers[1..], number);
      cut := rest + 1;
      assert forall i | 0 < i < |headers| :: headers[i] == headers[1..][i - 1];
    } else {
      cut := 0;
    }
  }

  lemma ExtendsKeeps(headers: seq<ParentParams>, b: Block, reorg: bool, next: seq<ParentParams>)
    requires Increasing(headers) && Extends(headers, b, reorg, next)
    ensures Increasing(next) && next != []
    ensures headers != [] ==> next[0].blockNumber == headers[0].blockNumber
    ensures if headers == [] || b.header.number > Tip(headers).blockNumber || reorg
            then Tip(next).blockNumber == b.header.number
            else next == headers
  {
  }

  lemma PreconfKeepsVerifies(coinbase: Address, c: Context, posted: nat, b: Block)
    requires Inv(coinbase, c, posted) && Orderly(c, posted, Preconf(b))
    ensures VerifiesLocal(coinbase, NewPreconf(coinbase, c, b).0)
  {
    var (c', reorg) := NewPreconf(coinbase, c, b);
    PreconfMeaning(coinbase, c, b);
    PreconfVerifies(coinbase, c, b);
    ExtendsKeeps(c.l2Headers, b, reorg, c'.l2Headers);
    hide NewPreconf;
  }

  lemma PreconfKeepsInv(coinbase: Address, c: Context, posted: nat, b: Block)
    requires Inv(coinbase, c, posted) && Orderly(c, posted, Preconf(b))
    ensures Inv(coinbase, NewPreconf(coinbase, c, b).0, posted)
    ensures NewPreconf(coinbase, c, b).0.l2Headers != []
  {
    var (c', reorg) := NewPreconf(coinbase, c, b);
    PreconfMeaning(coinbase, c, b);
    ExtendsKeeps(c.l2Headers, b, reorg, c'.l2Headers);
    PreconfKeepsVerifies(coinbase, c, posted, b);
    hide NewPreconf, HasOther, Extends, VerifiesLocal;
  }

  lemma OriginKeepsInv(coinbase: Address, c: Context, posted: nat, number: nat)
    requires Inv(coinbase, c, posted) && Orderly(c, posted, Origin(number))
    ensures Inv(coinbase, NewOrigin(c, number), PostedAfter(posted, Origin(number)))
    ensures c.l2Headers != [] ==> NewOrigin(c, number).l2Headers != []
  {
    var cut := PruneKeeps(c.l2Headers, number);
  }

  lemma StepKeepsInv(coinbase: Address, lag: nat, c: Context, posted: nat, e: Event)
    requires Inv(coinbase, c, posted) && Orderly(c, posted, e)
    ensures Inv(coinbase, Step(coinbase, lag, c, e), PostedAfter(posted, e))
    ensures c.l2Headers != [] || e.Preconf? ==> Step(coinbase, lag, c, e).l2Headers != []
  {
    match e
    case Preconf(b) => PreconfKeepsInv(coinbase, c, posted, b);
    case Origin(number) => OriginKeepsInv(coinbase, c, posted, number);
    case L1(_) =>
  }

  ghost predicate Drawn(next: seq<Block>, blocks: seq<Block>, e: Event) {
    forall i | 0 <= i < |next| :: next[i] in blocks || e == Preconf(next[i])
  }

  lemma PreconfTracks(c: Context, blocks: seq<Block>, b: Block, reorg: bool, c': Context) returns (next: seq<Block>)
    requires Tracks(c, blocks) && b.anchor.Anchor? && Extends(c.l2Headers, b, reorg, c'.l2Headers)
    requires c'.parentAnchorBlockId == if c'.l2Headers == c.l2Headers then c.parentAnchorBlockId else b.anchor.blockId
    ensures Tracks(c', next) && Drawn(next, blocks, Preconf(b))
  {
    if c'.l2Headers == c.l2Headers {
      next := blocks;
    } else {
      var k := |c'.l2Headers| - 1;
      next := blocks[..k] + [b];
      assert c'.l2Headers == c.l2Headers[..k] + [ParentOf(b.header)];
    }
  }

  lemma SuffixTracks(c: Context, blocks: seq<Block>, cut: nat, c': Context, e: Event)
    requires Tracks(c, blocks) && cut <= |blocks| && (cut == |blocks| ==> blocks == [])
    requires c'.l2Headers == c.l2Headers[cut..] && c'.parentAnchorBlockId == c.parentAnchorBlockId
    ensures Tracks(c', blocks[cut..]) && Drawn(blocks[cut..], blocks, e)
  {
  }

  lemma OriginTracks(c: Context, blocks: seq<Block>, number: nat) returns (next: seq<Block>)
    requires Increasing(c.l2Headers) && Tracks(c, blocks)
    requires c.l2Headers != [] ==> number <= Tip(c.l2Headers).blockNumber
    ensures Tracks(NewOrigin(c, number), next) && Drawn(next, blocks, Origin(number))
  {
    var pruned := NewOrigin(c, number);
    assert |blocks| == |c.l2Headers| && pruned.l2Headers == PruneFront(c.l2Headers, number);
    assert pruned.parentAnchorBlockId == c.parentAnchorBlockId;
    hide Increasing, PruneFront, NewOrigin, Verified, Tracks, Drawn;
    var cut := PruneKeeps(c.l2Headers, number);
    SuffixTracks(c, blocks, cut, pruned, Origin(number));
    next := blocks[cut..];
  }

  lemma StepTracks(coinbase: Address, lag: nat, c: Context, blocks: seq<Block>, posted: nat, e: Event)
    returns (next: seq<Block>)
    requires Inv(coinbase, c, posted) && Tracks(c, blocks) && Orderly(c, posted, e)
    ensures Tracks(Step(coinbase, lag, c, e), next) && Drawn(next, blocks, e)
  {
    match e
    case L1(_) =>
      next := blocks;
    case Origin(number) =>
      next := OriginTracks(c, blocks, number);
    case Preconf(b) =>
      PreconfMeaning(coinbase, c, b);
      var (c', reorg) := NewPreconf(coinbase, c, b);
      hide NewPreconf, Inv, HasOther, Extends, Tracks;
      next := PreconfTracks(c, blocks, b, reorg, c');
  }

  ghost predicate FromStream(blocks: seq<Block>, events: seq<Event>) {
    forall i | 0 <= i < |blocks| :: Preconf(blocks[i]) in events
  }

  lemma DrawnFromStream(next: seq<Block>, blocks: seq<Block>, events: seq<Event>)
    requires events != [] && FromStream(blocks, events[..|events| - 1])
    requires Drawn(next, blocks, events[|events| - 1])
    ensures FromStream(next, events)
  {
  }

  lemma PrefixOrderly(coinbase: Address, lag: nat, events: seq<Event>)
    requires events != [] && OrderlyRun(coinbase, lag, events)
    ensures OrderlyRun(coinbase, lag, events[..|events| - 1])
    ensures Orderly(Run(coinbase, lag, events[..|events| - 1]), Posted(events[..|events| - 1]), events[|events| - 1])
  {
    var n := |events| - 1;
    forall i | 0 <= i < n
      ensures Orderly(Run(coinbase, lag, events[..n][..i]), Posted(events[..n][..i]), events[..n][i])
    {
      assert events[..n][..i] == events[..i];
    }
  }

  predicate SeesBlock(events: seq<Event>) {
    events != [] && (events[|events| - 1].Preconf? || SeesBlock(events[..|events| - 1]))
  }

  /** After any orderly stream of preconfirmed blocks, reorgs, gaps, origin and L1 blocks: the local chain
      increases strictly, starts no earlier than what is posted, is not empty once a block was seen,
      consists of blocks of the stream, and the parent anchor is its last block's. Every pending
      verification is for a block of ours not above the chain, and for the chain's own block of its number
      if the chain has one. */
  lemma {:induction false} ContextInvariant(coinbase: Address, lag: nat, events: seq<Event>)
    returns (blocks: seq<Block>)
    requires OrderlyRun(coinbase, lag, events)
    ensures
      var c := Run(coinbase, lag, events);
      && Inv(coinbase, c, Posted(events))
      && Tracks(c, blocks)
      && FromStream(blocks, events)
      && (SeesBlock(events) ==> c.l2Headers != [])
  {
    if events == [] {
      blocks := [];
    } else {
      var n := |events| - 1;
      PrefixOrderly(coinbase, lag, events);
      var before := ContextInvariant(coinbase, lag, events[..n]);
      var c, posted, e := Run(coinbase, lag, events[..n]), Posted(events[..n]), events[n];
      assert Run(coinbase, lag, events) == Step(coinbase, lag, c, e) && Posted(events) == PostedAfter(posted, e);
      assert SeesBlock(events) ==> SeesBlock(events[..n]) || e.Preconf?;
      assert Orderly(c, posted, e);
      hide *;
      StepKeepsInv(coinbase, lag, c, posted, e);
      blocks := StepTracks(coinbase, lag, c, before, posted, e);
      DrawnFromStream(blocks, before, events);
    }
  }

  // ---- the safe L1 block ----

  ghost predicate KeyedByNumber(headers: map<nat, Header>) {
    forall n | n in headers :: headers[n].number == n
  }

  /** Whatever L1 blocks came before, the safe one is at most the configured lag behind the newest, and is
      the oldest one that is. */
  lemma SafeL1InLag(lag: nat, c: Context, h: Header)
    requires lag <= h.number < U64 && KeyedByNumber(c.l1Headers)
    ensures
      var c' := NewL1(lag, c, h);
      && KeyedByNumber(c'.l1Headers)
      && SafeL1(c').Some? && h.number - lag <= SafeL1(c').value.number <= h.number
      && (forall n | n in c'.l1Headers :: SafeL1(c').value.number <= n)
      && (forall n :: n in c'.l1Headers <==> n == h.number || (n in c.l1Headers && h.number - lag <= n))
  {
    assert (h.number - lag) % U64 == h.number - lag;
    var kept := NewL1(lag, c, h).l1Headers;
    assert h.number in kept && kept != map[];
    assert IsLeast(MinKey(kept), kept.Keys);
  }

  function FeedL1(lag: nat, headers: seq<Header>): Context {
    if headers == [] then START else NewL1(lag, FeedL1(lag, headers[..|headers| - 1]), headers[|headers| - 1])
  }

  function Max(a: int, b: int): int {
    if a >= b then a else b
  }

  ghost predicate Holds(headers: map<nat, Header>, low: int, high: int) {
    && (forall n: nat :: n in headers <==> low <= n <= high)
    && KeyedByNumber(headers)
  }

  lemma SafeHeld(c: Context, low: nat, high: nat)
    requires Holds(c.l1Headers, low, high) && low <= high
    ensures c.l1Headers != map[] && SafeL1(c).Some? && SafeL1(c).value.number == low
  {
    assert low in c.l1Headers;
    assert IsLeast(MinKey(c.l1Headers), c.l1Headers.Keys);
  }

  lemma HoldsNext(lag: nat, c: Context, low: nat, h: Header)
    requires lag <= h.number < U64
    requires c.l1Headers == map[] ==> low == h.number
    requires c.l1Headers != map[] ==> h.number > 0 && low <= h.number && Holds(c.l1Headers, low, h.number - 1)
    ensures Holds(NewL1(lag, c, h).l1Headers, Max(low, h.number - lag), h.number)
  {
    assert (h.number - lag) % U64 == h.number - lag;
  }

  /** Fed with consecutive L1 blocks, the safe block lags the newest by exactly the configured lag, once
      there are that many. */
  lemma {:induction false} SafeL1Lags(lag: nat, headers: seq<Header>)
    requires headers != [] && lag <= headers[0].number
    requires forall i | 0 <= i < |headers| :: headers[i].number == headers[0].number + i < U64
    ensures
      var newest := headers[|headers| - 1].number;
      var low := Max(headers[0].number, newest - lag);
      var c := FeedL1(lag, headers);
      Holds(c.l1Headers, low, newest) && SafeL1(c).Some? && SafeL1(c).value.number == low
  {
    var n := |headers| - 1;
    var h, first := headers[n], headers[0].number;
    var before, after := FeedL1(lag, headers[..n]), FeedL1(lag, headers);
    assert h.number == first + n && after == NewL1(lag, before, h);
    assert n == 0 ==> before == START;
    if n > 0 {
      assert headers[..n][n - 1].number == h.number - 1;
      SafeL1Lags(lag, headers[..n]);
    }
    hide FeedL1, Holds, SafeL1, NewL1;
    if n == 0 {
      HoldsNext(lag, before, first, h);
    } else {
      var low := Max(first, h.number - 1 - lag);
      SafeHeld(before, low, h.number - 1);
      HoldsNext(lag, before, low, h);
    }
    SafeHeld(after, Max(first, h.number - lag), h.number);
  }
}
