/** What posted blocks, unusual blocks and L1 blocks do to the sequencer's view of the chains. */
module ContextSteps {
  import opened GatewayTypes
  import opened TxLists
  import opened ChainContext

  // ---- posted blocks ----

  /** What waits for verification after a posted block. */
  lemma VerifiedMeaning(toVerify: map<nat, Header>, number: nat)
    ensures
      var left := Verified(toVerify, number);
      && (forall n :: n in left <==> n in toVerify && n != number && (n > number || number in toVerify))
      && (forall n | n in left :: left[n] == toVerify[n])
  {
    if toVerify != map[] {
      assert IsLeast(MinKey(toVerify), toVerify.Keys);
    }
  }

  /** A posted block is no longer waited for. If it was, that is all; if it was not, the blocks below it that still
      wait were missed and are given up as well. The local chain keeps exactly the blocks from it on, and nothing
      else changes. */
  lemma OriginMeaning(c: Context, number: nat)
    requires Increasing(c.l2Headers)
    ensures
      var c' := NewOrigin(c, number);
      && c'.l1Headers == c.l1Headers && c'.parentAnchorBlockId == c.parentAnchorBlockId
      && (forall n :: n in c'.toVerify <==> n in c.toVerify && n != number && (n > number || number in c.toVerify))
      && (forall n | n in c'.toVerify :: c'.toVerify[n] == c.toVerify[n])
      && (forall p :: p in c'.l2Headers <==> p in c.l2Headers && p.blockNumber >= number)
  {
    VerifiedMeaning(c.toVerify, number);
    var cut := PruneKeeps(c.l2Headers, number);
    hide PruneFront, Verified, Increasing;
    assert c.l2Headers == c.l2Headers[..cut] + c.l2Headers[cut..];
    assert forall p | p in c.l2Headers[..cut] :: p.blockNumber < number;
    assert forall p | p in c.l2Headers[cut..] :: p.blockNumber >= number;
  }

  /** Events that leave what waits under number `n` alone: L1 blocks, posted blocks below it, and blocks
      above it. */
  predicate Spares(e: Event, n: nat) {
    match e
    case Preconf(b) => b.header.number > n
    case Origin(number) => number < n
    case L1(_) => true
  }

  lemma SparedStays(coinbase: Address, lag: nat, c: Context, e: Event, n: nat)
    requires n in c.toVerify && Spares(e, n)
    ensures n in Step(coinbase, lag, c, e).toVerify && Step(coinbase, lag, c, e).toVerify[n] == c.toVerify[n]
  {
    match e
    case Preconf(b) =>
      PreconfVerifies(coinbase, c, b);
      hide NewPreconf;
    case Origin(number) =>
      VerifiedMeaning(c.toVerify, number);
      hide Verified;
    case L1(_) =>
  }

  lemma RunSnoc(coinbase: Address, lag: nat, before: seq<Event>, rest: seq<Event>)
    requires rest != []
    ensures
      var k := |rest| - 1;
      Run(coinbase, lag, before + rest) == Step(coinbase, lag, Run(coinbase, lag, before + rest[..k]), rest[k])
  {
    var all := before + rest;
    hide Step;
    assert all[..|all| - 1] == before + rest[..|rest| - 1];
  }

  /** Over every run, a block of ours waits for verification until it or a later one is posted, or a block of its
      number or below arrives. */
  lemma {:induction false} WaitsUntil(coinbase: Address, lag: nat, before: seq<Event>, rest: seq<Event>, n: nat)
    requires n in Run(coinbase, lag, before).toVerify
    requires forall i | 0 <= i < |rest| :: Spares(rest[i], n)
    ensures
      var waiting := Run(coinbase, lag, before + rest).toVerify;
      n in waiting && waiting[n] == Run(coinbase, lag, before).toVerify[n]
  {
    if rest == [] {
      assert before + rest == before;
    } else {
      var k := |rest| - 1;
      RunSnoc(coinbase, lag, before, rest);
      hide *;
      WaitsUntil(coinbase, lag, before, rest[..k], n);
      SparedStays(coinbase, lag, Run(coinbase, lag, before + rest[..k]), rest[k], n);
    }
  }

  /** And after it or a later one is posted, it does not wait, unless the later one did too. */
  lemma PostedIsSettled(coinbase: Address, lag: nat, events: seq<Event>, number: nat, n: nat)
    requires n <= number && n in Run(coinbase, lag, events + [Origin(number)]).toVerify
    ensures n < number && number in Run(coinbase, lag, events).toVerify
  {
    assert (events + [Origin(number)])[..|events|] == events;
    VerifiedMeaning(Run(coinbase, lag, events).toVerify, number);
    hide Verified;
  }

  // ---- blocks without a readable anchor call ----

  /** The chain after such a block in terms of where its number is found. */
  lemma OddBlockHeaders(coinbase: Address, c: Context, b: Block)
    requires !b.anchor.Anchor?
    requires Position(c.l2Headers, b.header.number).Some? ==> b.header.number <= Tip(c.l2Headers).blockNumber
    ensures
      var (c', reorg) := NewPreconf(coinbase, c, b);
      var at, added := Position(c.l2Headers, b.header.number), if b.anchor.Missing? then [] else [ParentOf(b.header)];
      var above := c.l2Headers == [] || b.header.number > Tip(c.l2Headers).blockNumber;
      && (reorg <==> at.Some? && c.l2Headers[at.value].hash != b.header.hash)
      && c'.l2Headers == (if above then c.l2Headers + added
                          else if reorg then c.l2Headers[..at.value] + added
                          else c.l2Headers)
      && c'.parentAnchorBlockId == c.parentAnchorBlockId && c'.l1Headers == c.l1Headers
  {
    hide Position;
    assert c.l2Headers + [] == c.l2Headers;
  }

  /** A block whose anchor call cannot be read moves the chain like any other but leaves the parent anchor. */
  lemma UndecodableMeaning(coinbase: Address, c: Context, b: Block)
    requires Increasing(c.l2Headers) && b.anchor.Undecodable?
    ensures
      var (c', reorg) := NewPreconf(coinbase, c, b);
      && (reorg <==> HasOther(c.l2Headers, b.header)) && Extends(c.l2Headers, b, reorg, c'.l2Headers)
      && c'.parentAnchorBlockId == c.parentAnchorBlockId && c'.l1Headers == c.l1Headers
  {
    PositionMeaning(c.l2Headers, b.header);
    OddBlockHeaders(coinbase, c, b);
    hide HasOther, Increasing, NewPreconf, Position;
    var at, next := Position(c.l2Headers, b.header.number), NewPreconf(coinbase, c, b).0.l2Headers;
    if at.Some? && c.l2Headers[at.value].hash != b.header.hash {
      assert next[..|next| - 1] == c.l2Headers[..at.value];
    }
  }

  /** A block without transactions reorgs like any other, but is not itself added to the chain. */
  lemma MissingMeaning(coinbase: Address, c: Context, b: Block)
    requires Increasing(c.l2Headers) && b.anchor.Missing?
    ensures
      var (c', reorg) := NewPreconf(coinbase, c, b);
      var kept := |c'.l2Headers|;
      && (reorg <==> HasOther(c.l2Headers, b.header))
      && c'.parentAnchorBlockId == c.parentAnchorBlockId && c'.l1Headers == c.l1Headers
      && c'.l2Headers <= c.l2Headers
      && (if reorg then kept < |c.l2Headers| && c.l2Headers[kept].blockNumber == b.header.number
          else c'.l2Headers == c.l2Headers)
  {
    PositionMeaning(c.l2Headers, b.header);
    OddBlockHeaders(coinbase, c, b);
    hide HasOther, Increasing, NewPreconf, Position, Tip;
    var at := Position(c.l2Headers, b.header.number);
    assert c.l2Headers + [] == c.l2Headers;
    if at.Some? {
      assert c.l2Headers[..at.value] + [] == c.l2Headers[..at.value];
    }
  }

  // ---- L1 blocks ----

  /** An L1 block is remembered under its number, and of the others exactly those within the lag below it. In the
      first blocks of a chain shorter than the lag the bound wraps around, and only headers that much below 2^64
      would stay. */
  lemma L1Meaning(lag: nat, c: Context, h: Header)
    requires lag < U64 && h.number < U64
    ensures
      var c' := NewL1(lag, c, h);
      && c' == c.(l1Headers := c'.l1Headers)
      && (forall n :: n in c'.l1Headers
                      <==> || n == h.number
                           || (n in c.l1Headers && n + lag >= if h.number >= lag then h.number else h.number + U64))
      && (forall n | n in c'.l1Headers :: c'.l1Headers[n] == if n == h.number then h else c.l1Headers[n])
  {
    var from := (h.number - lag) % U64;
    assert from == if h.number >= lag then h.number - lag else h.number - lag + U64;
  }

  ghost predicate Fed(headers: seq<Header>, number: nat) {
    exists i :: 0 <= i < |headers| && headers[i].number == number
  }

  lemma {:induction false} KnownAreFed(lag: nat, headers: seq<Header>, number: nat)
    requires number in FeedL1(lag, headers).l1Headers
    ensures Fed(headers, number)
  {
    var n := |headers| - 1;
    if number == headers[n].number {
    } else {
      KnownAreFed(lag, headers[..n], number);
      var i :| 0 <= i < n && headers[..n][i].number == number;
      assert headers[i].number == number;
    }
  }

  /** So on a chain shorter than the lag the newest L1 block is the only one known, and counts as safe. */
  lemma ShortChainForgets(lag: nat, headers: seq<Header>)
    requires headers != [] && lag < U64
    requires forall i | 0 <= i < |headers| :: headers[i].number < lag && headers[i].number + lag < U64
    ensures
      var h := headers[|headers| - 1];
      FeedL1(lag, headers).l1Headers == map[h.number := h] && SafeL1(FeedL1(lag, headers)) == Some(h)
  {
    var n := |headers| - 1;
    var h, c := headers[n], FeedL1(lag, headers[..n]);
    L1Meaning(lag, c, h);
    var kept := FeedL1(lag, headers).l1Headers;
    forall m | m in kept
      ensures m == h.number
    {
      if m != h.number {
        KnownAreFed(lag, headers[..n], m);
      }
    }
    hide FeedL1, NewL1;
    assert h.number in kept && kept[h.number] == h;
    assert kept == map[h.number := h];
    assert IsLeast(MinKey(kept), kept.Keys);
  }
}
