/** Rebuilding the batches of preconfirmed blocks that were not proposed: grouping by anchor. */
module Resync {
  import opened GatewayTypes
  import opened Batches
  import opened Proposals
  import Lists = TxLists

  /** The anchor block id in a block's anchor call, if its first transaction is one. */
  type AnchorOf = L2Block -> Option<nat>

  predicate Anchored(anchorOf: AnchorOf, b: L2Block) {
    |b.txs| > 0 && b.txs[0].sender == GOLDEN_TOUCH_ADDRESS && anchorOf(b).Some?
  }

  predicate AllAnchored(anchorOf: AnchorOf, blocks: seq<L2Block>) {
    forall i | 0 <= i < |blocks| :: Anchored(anchorOf, blocks[i])
  }

  function AnchorId(anchorOf: AnchorOf, b: L2Block): nat {
    match anchorOf(b)
    case Some(id) => id
    case None => 0
  }

  function Only(anchorOf: AnchorOf, blocks: seq<L2Block>, id: nat): seq<L2Block> {
    if blocks == [] then []
    else
      var n := |blocks| - 1;
      var before := Only(anchorOf, blocks[..n], id);
      if AnchorId(anchorOf, blocks[n]) == id then before + [blocks[n]] else before
  }

  function Without(anchorOf: AnchorOf, blocks: seq<L2Block>, id: nat): seq<L2Block> {
    if blocks == [] then []
    else
      var n := |blocks| - 1;
      var before := Without(anchorOf, blocks[..n], id);
      if AnchorId(anchorOf, blocks[n]) == id then before else before + [blocks[n]]
  }

  ghost predicate GroupsOf(anchorOf: AnchorOf, blocks: seq<L2Block>, groups: map<nat, seq<L2Block>>) {
    && (forall i | 0 <= i < |blocks| :: AnchorId(anchorOf, blocks[i]) in groups)
    && (forall id | id in groups :: groups[id] != [] && groups[id] == Only(anchorOf, blocks, id))
  }

  lemma {:induction false} OnlyAbsent(anchorOf: AnchorOf, blocks: seq<L2Block>, id: nat)
    requires forall i | 0 <= i < |blocks| :: AnchorId(anchorOf, blocks[i]) != id
    ensures Only(anchorOf, blocks, id) == []
  {
    if blocks != [] {
      OnlyAbsent(anchorOf, blocks[..|blocks| - 1], id);
    }
  }

  lemma GroupNext(anchorOf: AnchorOf, blocks: seq<L2Block>, groups: map<nat, seq<L2Block>>, b: L2Block)
    requires GroupsOf(anchorOf, blocks, groups)
    ensures
      var id := AnchorId(anchorOf, b);
      GroupsOf(anchorOf, blocks + [b], groups[id := (if id in groups then groups[id] else []) + [b]])
  {
    var id := AnchorId(anchorOf, b);
    if id !in groups {
      OnlyAbsent(anchorOf, blocks, id);
    }
    forall other: nat
      ensures Only(anchorOf, blocks + [b], other) == Only(anchorOf, blocks, other) + if other == id then [b] else []
    {
      assert (blocks + [b])[..|blocks|] == blocks;
    }
    hide Only;
  }

  lemma {:induction false} OnlyIn(anchorOf: AnchorOf, blocks: seq<L2Block>, id: nat)
    ensures forall b | b in Only(anchorOf, blocks, id) :: b in blocks && AnchorId(anchorOf, b) == id
  {
    if blocks != [] {
      OnlyIn(anchorOf, blocks[..|blocks| - 1], id);
    }
  }

  lemma GroupsAreAnchored(anchorOf: AnchorOf, blocks: seq<L2Block>, groups: map<nat, seq<L2Block>>)
    requires AllAnchored(anchorOf, blocks) && GroupsOf(anchorOf, blocks, groups)
    ensures forall id, b | id in groups && b in groups[id] :: b in blocks && anchorOf(b) == Some(id)
  {
    forall id, b | id in groups && b in groups[id]
      ensures b in blocks && anchorOf(b) == Some(id)
    {
      OnlyIn(anchorOf, blocks, id);
      var i :| 0 <= i < |blocks| && blocks[i] == b;
      assert Anchored(anchorOf, blocks[i]);
    }
  }

  lemma AnchoredSnoc(anchorOf: AnchorOf, blocks: seq<L2Block>, b: L2Block)
    ensures AllAnchored(anchorOf, blocks + [b]) <==> AllAnchored(anchorOf, blocks) && Anchored(anchorOf, b)
  {
    var all, n := blocks + [b], |blocks|;
    hide Anchored;
    assert all[n] == b && forall i | 0 <= i < n :: all[i] == blocks[i];
  }

  lemma EachAnchored(anchorOf: AnchorOf, blocks: seq<L2Block>)
    requires AllAnchored(anchorOf, blocks)
    ensures forall i | 0 <= i < |blocks| ::
              |blocks[i].txs| > 0 && blocks[i].txs[0].sender == GOLDEN_TOUCH_ADDRESS && anchorOf(blocks[i]).Some?
  {
    assert forall i | 0 <= i < |blocks| :: Anchored(anchorOf, blocks[i]);
  }

  /** Appends every block to the group of its anchor, and fails on the first block without one. */
  method Group(anchorOf: AnchorOf, blocks: seq<L2Block>) returns (groups: Option<map<nat, seq<L2Block>>>)
    ensures groups.Some?
            <==> forall i | 0 <= i < |blocks| ::
                   |blocks[i].txs| > 0 && blocks[i].txs[0].sender == GOLDEN_TOUCH_ADDRESS && anchorOf(blocks[i]).Some?
    ensures groups.Some? ==> AllAnchored(anchorOf, blocks) && GroupsOf(anchorOf, blocks, groups.value)
    ensures groups.Some? ==>
      forall id, b | id in groups.value && b in groups.value[id] :: b in blocks && anchorOf(b) == Some(id)
  {
    assert GroupsOf(anchorOf, blocks[..0], map[]) && AllAnchored(anchorOf, blocks[..0]);
    hide GroupsOf, Only, AllAnchored;
    var toPropose: map<nat, seq<L2Block>> := map[];
    for i := 0 to |blocks|
      invariant AllAnchored(anchorOf, blocks[..i])
      invariant GroupsOf(anchorOf, blocks[..i], toPropose)
    {
      var b := blocks[i];
      if |b.txs| == 0 || b.txs[0].sender != GOLDEN_TOUCH_ADDRESS || anchorOf(b).None? {
        return None;
      }
      var id := anchorOf(b).value;
      var before := if id in toPropose then toPropose[id] else [];
      GroupNext(anchorOf, blocks[..i], toPropose, b);
      AnchoredSnoc(anchorOf, blocks[..i], b);
      assert blocks[..i + 1] == blocks[..i] + [b];
      toPropose := toPropose[id := before + [b]];
    }
    assert blocks[..|blocks|] == blocks;
    GroupsAreAnchored(anchorOf, blocks, toPropose);
    EachAnchored(anchorOf, blocks);
    return Some(toPropose);
  }

  /** The groups one after the other, in increasing order of their anchors. */
  function InOrder(groups: map<nat, seq<L2Block>>): seq<L2Block>
    decreases |groups|
  {
    if groups == map[] then []
    else
      var id := Lists.MinKey(groups);
      groups[id] + InOrder(groups - {id})
  }

  ghost predicate Nondecreasing(anchorOf: AnchorOf, blocks: seq<L2Block>) {
    forall i, j | 0 <= i < j < |blocks| :: AnchorId(anchorOf, blocks[i]) <= AnchorId(anchorOf, blocks[j])
  }

  lemma AppendToEither<T>(whole: seq<T>, a: seq<T>, b: seq<T>, x: T)
    requires multiset(whole) == multiset(a) + multiset(b)
    ensures multiset(whole + [x]) == multiset(a + [x]) + multiset(b) == multiset(a) + multiset(b + [x])
  {
  }

  lemma SplitSnoc(anchorOf: AnchorOf, blocks: seq<L2Block>, id: nat)
    requires blocks != []
    ensures
      var n := |blocks| - 1;
      var b, only, without := blocks[n], Only(anchorOf, blocks[..n], id), Without(anchorOf, blocks[..n], id);
      && blocks == blocks[..n] + [b]
      && Only(anchorOf, blocks, id) == (if AnchorId(anchorOf, b) == id then only + [b] else only)
      && Without(anchorOf, blocks, id) == if AnchorId(anchorOf, b) == id then without else without + [b]
  {
  }

  lemma {:induction false} SplitOff(anchorOf: AnchorOf, blocks: seq<L2Block>, id: nat)
    ensures multiset(blocks) == multiset(Only(anchorOf, blocks, id)) + multiset(Without(anchorOf, blocks, id))
  {
    if blocks != [] {
      var n := |blocks| - 1;
      SplitSnoc(anchorOf, blocks, id);
      SplitOff(anchorOf, blocks[..n], id);
      hide *;
      AppendToEither(blocks[..n], Only(anchorOf, blocks[..n], id), Without(anchorOf, blocks[..n], id), blocks[n]);
    }
  }

  lemma {:induction false} OthersStay(anchorOf: AnchorOf, blocks: seq<L2Block>, id: nat, other: nat)
    requires other != id
    ensures Only(anchorOf, Without(anchorOf, blocks, id), other) == Only(anchorOf, blocks, other)
  {
    if blocks != [] {
      var n := |blocks| - 1;
      OthersStay(anchorOf, blocks[..n], id, other);
      var rest := Without(anchorOf, blocks[..n], id);
      assert (rest + [blocks[n]])[..|rest|] == rest && rest + [] == rest;
    }
  }

  lemma {:induction false} OneGroup(anchorOf: AnchorOf, blocks: seq<L2Block>, id: nat)
    requires forall i | 0 <= i < |blocks| :: AnchorId(anchorOf, blocks[i]) == id
    ensures Only(anchorOf, blocks, id) == blocks && Without(anchorOf, blocks, id) == []
  {
    if blocks != [] {
      OneGroup(anchorOf, blocks[..|blocks| - 1], id);
    }
  }

  lemma PrefixNondecreasing(anchorOf: AnchorOf, blocks: seq<L2Block>, n: nat)
    requires n <= |blocks| && Nondecreasing(anchorOf, blocks)
    ensures Nondecreasing(anchorOf, blocks[..n])
  {
    hide AnchorId;
  }

  /** A list that starts with its least anchors starts with that whole group. */
  lemma {:induction false} SplitSorted(anchorOf: AnchorOf, blocks: seq<L2Block>, id: nat)
    requires Nondecreasing(anchorOf, blocks) && forall i | 0 <= i < |blocks| :: id <= AnchorId(anchorOf, blocks[i])
    ensures blocks == Only(anchorOf, blocks, id) + Without(anchorOf, blocks, id)
  {
    if blocks != [] {
      var n := |blocks| - 1;
      if AnchorId(anchorOf, blocks[n]) == id {
        hide Only, Without;
        OneGroup(anchorOf, blocks, id);
        assert blocks + [] == blocks;
      } else {
        PrefixNondecreasing(anchorOf, blocks, n);
        hide Nondecreasing;
        SplitSorted(anchorOf, blocks[..n], id);
        assert blocks == blocks[..n] + [blocks[n]];
      }
    }
  }

  lemma {:induction false} WithoutKeeps(anchorOf: AnchorOf, blocks: seq<L2Block>, id: nat)
    ensures forall b :: b in Without(anchorOf, blocks, id) <==> b in blocks && AnchorId(anchorOf, b) != id
  {
    if blocks != [] {
      var n := |blocks| - 1;
      WithoutKeeps(anchorOf, blocks[..n], id);
      assert blocks == blocks[..n] + [blocks[n]];
    }
  }

  ghost predicate AtMost(anchorOf: AnchorOf, blocks: seq<L2Block>, bound: nat) {
    forall i | 0 <= i < |blocks| :: AnchorId(anchorOf, blocks[i]) <= bound
  }

  lemma {:induction false} WithoutNondecreasing(anchorOf: AnchorOf, blocks: seq<L2Block>, id: nat, bound: nat)
    requires Nondecreasing(anchorOf, blocks) && AtMost(anchorOf, blocks, bound)
    ensures Nondecreasing(anchorOf, Without(anchorOf, blocks, id))
             && AtMost(anchorOf, Without(anchorOf, blocks, id), bound)
  {
    if blocks != [] {
      var n := |blocks| - 1;
      PrefixNondecreasing(anchorOf, blocks, n);
      WithoutNondecreasing(anchorOf, blocks[..n], id, AnchorId(anchorOf, blocks[n]));
      assert Without(anchorOf, blocks[..n], id) + [] == Without(anchorOf, blocks[..n], id);
      hide AnchorId;
    }
  }

  lemma GroupsWithout(anchorOf: AnchorOf, blocks: seq<L2Block>, groups: map<nat, seq<L2Block>>, id: nat)
    requires GroupsOf(anchorOf, blocks, groups)
    ensures GroupsOf(anchorOf, Without(anchorOf, blocks, id), groups - {id})
  {
    WithoutKeeps(anchorOf, blocks, id);
    var rest := Without(anchorOf, blocks, id);
    assert forall i | 0 <= i < |rest| :: rest[i] in blocks;
    forall other | other in groups && other != id
      ensures groups[other] == Only(anchorOf, Without(anchorOf, blocks, id), other)
    {
      OthersStay(anchorOf, blocks, id, other);
    }
  }

  lemma NoGroups(anchorOf: AnchorOf, groups: map<nat, seq<L2Block>>)
    requires GroupsOf(anchorOf, [], groups)
    ensures groups == map[]
  {
    assert forall id: nat :: Only(anchorOf, [], id) == [];
  }

  lemma {:induction false} InOrderPermutes(anchorOf: AnchorOf, blocks: seq<L2Block>, groups: map<nat, seq<L2Block>>)
    requires GroupsOf(anchorOf, blocks, groups)
    ensures multiset(InOrder(groups)) == multiset(blocks)
    decreases |groups|
  {
    if blocks == [] {
      NoGroups(anchorOf, groups);
    } else {
      assert AnchorId(anchorOf, blocks[0]) in groups;
      var id := Lists.MinKey(groups);
      GroupsWithout(anchorOf, blocks, groups, id);
      InOrderPermutes(anchorOf, Without(anchorOf, blocks, id), groups - {id});
      hide Only, Without;
      SplitOff(anchorOf, blocks, id);
    }
  }

  lemma {:induction false} InOrderRestores(anchorOf: AnchorOf, blocks: seq<L2Block>, groups: map<nat, seq<L2Block>>)
    requires GroupsOf(anchorOf, blocks, groups) && Nondecreasing(anchorOf, blocks)
    ensures InOrder(groups) == blocks
    decreases |groups|
  {
    if blocks == [] {
      NoGroups(anchorOf, groups);
    } else {
      assert AnchorId(anchorOf, blocks[0]) in groups;
      var id := Lists.MinKey(groups);
      assert groups[id] == Only(anchorOf, blocks, id);
      assert InOrder(groups) == groups[id] + InOrder(groups - {id});
      SplitSorted(anchorOf, blocks, id);
      hide Only, Without, InOrder;
      GroupsWithout(anchorOf, blocks, groups, id);
      WithoutNondecreasing(anchorOf, blocks, id, AnchorId(anchorOf, blocks[|blocks| - 1]));
      InOrderRestores(anchorOf, Without(anchorOf, blocks, id), groups - {id});
    }
  }

  ghost predicate Uniform(anchorOf: AnchorOf, groups: map<nat, seq<L2Block>>) {
    forall id, b | id in groups && b in groups[id] :: AnchorId(anchorOf, b) == id
  }

  lemma {:induction false} InOrderSorted(anchorOf: AnchorOf, groups: map<nat, seq<L2Block>>)
    requires Uniform(anchorOf, groups)
    ensures forall b | b in InOrder(groups) :: AnchorId(anchorOf, b) in groups
    ensures Nondecreasing(anchorOf, InOrder(groups))
    decreases |groups|
  {
    if groups != map[] {
      InOrderSorted(anchorOf, groups - {Lists.MinKey(groups)});
    }
  }

  /** Reading the groups back in key order gives the blocks in another order at most, and gives exactly
      the fetched list if and only if anchors never decrease along it. */
  lemma RegroupingIff(anchorOf: AnchorOf, blocks: seq<L2Block>, groups: map<nat, seq<L2Block>>)
    requires GroupsOf(anchorOf, blocks, groups)
    ensures multiset(InOrder(groups)) == multiset(blocks)
    ensures InOrder(groups) == blocks <==> Nondecreasing(anchorOf, blocks)
  {
    InOrderPermutes(anchorOf, blocks, groups);
    if Nondecreasing(anchorOf, blocks) {
      InOrderRestores(anchorOf, blocks, groups);
    }
    forall id, b | id in groups && b in groups[id]
      ensures AnchorId(anchorOf, b) == id
    {
      OnlyIn(anchorOf, blocks, id);
    }
    InOrderSorted(anchorOf, groups);
  }

  // ---- proposing the groups ----

  ghost predicate GroupsHaveAnchors(groups: map<nat, seq<L2Block>>) {
    forall id | id in groups :: groups[id] != [] && HaveAnchors(groups[id])
  }

  ghost function Requests(pk: Packing, groups: map<nat, seq<L2Block>>): seq<Batch>
    requires GroupsHaveAnchors(groups)
    decreases |groups|
  {
    if groups == map[] then []
    else
      var id := Lists.MinKey(groups);
      RequestFromBlocks(pk.(anchorBlockId := id), groups[id]) + Requests(pk, groups - {id})
  }

  /** Proposes the groups one by one, least anchor first. */
  method ProposeGroups(pk: Packing, groups: map<nat, seq<L2Block>>) returns (requests: seq<Batch>)
    requires GroupsHaveAnchors(groups)
    ensures requests == Requests(pk, groups)
  {
    requests := [];
    var rest := groups;
    while rest != map[]
      invariant GroupsHaveAnchors(rest)
      invariant requests + Requests(pk, rest) == Requests(pk, groups)
      decreases |rest|
    {
      var id := Lists.MinKey(rest);
      var batches := BuildRequests(pk.(anchorBlockId := id), rest[id]);
      assert Requests(pk, rest) == batches + Requests(pk, rest - {id});
      hide RequestFromBlocks;
      requests := requests + batches;
      rest := rest - {id};
    }
  }

  /** A batch records its run under its own anchor, which is the anchor of every block of the run, and under
      the proposer of the first block of that anchor. */
  ghost predicate Reproposes(anchorOf: AnchorOf, pk: Packing, groups: map<nat, seq<L2Block>>, batch: Batch,
                             run: seq<L2Block>)
  {
    && Records(pk.(anchorBlockId := batch.anchorBlockId), batch.coinbase, batch, run)
    && AllOn(anchorOf, run, batch.anchorBlockId)
    && batch.anchorBlockId in groups && groups[batch.anchorBlockId] != []
    && batch.coinbase == groups[batch.anchorBlockId][0].beneficiary
  }

  ghost predicate AllReproposed(anchorOf: AnchorOf, pk: Packing, groups: map<nat, seq<L2Block>>, batches: seq<Batch>,
                                runs: seq<seq<L2Block>>)
  {
    && |runs| == |batches|
    && forall i | 0 <= i < |batches| :: Reproposes(anchorOf, pk, groups, batches[i], runs[i])
  }

  lemma JoinReproposed(anchorOf: AnchorOf, pk: Packing, groups: map<nat, seq<L2Block>>, a: seq<Batch>, b: seq<Batch>,
                       runs: seq<seq<L2Block>>, more: seq<seq<L2Block>>)
    requires AllReproposed(anchorOf, pk, groups, a, runs) && AllReproposed(anchorOf, pk, groups, b, more)
    ensures AllReproposed(anchorOf, pk, groups, a + b, runs + more)
  {
    hide Reproposes;
  }

  lemma MoreGroups(anchorOf: AnchorOf, pk: Packing, groups: map<nat, seq<L2Block>>, id: nat, batches: seq<Batch>,
                   runs: seq<seq<L2Block>>)
    requires AllReproposed(anchorOf, pk, groups - {id}, batches, runs)
    ensures AllReproposed(anchorOf, pk, groups, batches, runs)
  {
    hide Records, AllOn;
    forall i | 0 <= i < |batches|
      ensures Reproposes(anchorOf, pk, groups, batches[i], runs[i])
    {
      assert Reproposes(anchorOf, pk, groups - {id}, batches[i], runs[i]);
    }
  }

  ghost predicate AllOn(anchorOf: AnchorOf, blocks: seq<L2Block>, id: nat) {
    forall i | 0 <= i < |blocks| :: AnchorId(anchorOf, blocks[i]) == id
  }

  lemma RunOn(anchorOf: AnchorOf, runs: seq<seq<L2Block>>, k: nat, id: nat)
    requires k < |runs| && AllOn(anchorOf, Flatten(runs), id)
    ensures AllOn(anchorOf, runs[k], id)
  {
    var at := RunInside(runs, k);
    var blocks, run := Flatten(runs), runs[k];
    hide AnchorId, Flatten;
    forall j | 0 <= j < |run|
      ensures AnchorId(anchorOf, run[j]) == id
    {
      assert run[j] == blocks[at + j];
    }
  }

  lemma GroupReproposed(anchorOf: AnchorOf, pk: Packing, groups: map<nat, seq<L2Block>>, id: nat)
    returns (runs: seq<seq<L2Block>>)
    requires id in groups && groups[id] != [] && HaveAnchors(groups[id]) && AllOn(anchorOf, groups[id], id)
    ensures
      var batches := RequestFromBlocks(pk.(anchorBlockId := id), groups[id]);
      Flatten(runs) == groups[id] && AllReproposed(anchorOf, pk, groups, batches, runs)
  {
    var pk', group := pk.(anchorBlockId := id), groups[id];
    runs := BatchesPartitionBlocks(pk', group);
    var batches := RequestFromBlocks(pk', group);
    hide RequestFromBlocks, Runs, Flatten, AllOn, HaveAnchors;
    forall i | 0 <= i < |batches|
      ensures Reproposes(anchorOf, pk, groups, batches[i], runs[i])
    {
      RunOn(anchorOf, runs, i, id);
      RunReproposed(anchorOf, pk, groups, id, batches[i], runs[i]);
    }
    hide Reproposes;
  }

  lemma RunReproposed(anchorOf: AnchorOf, pk: Packing, groups: map<nat, seq<L2Block>>, id: nat, batch: Batch,
                      run: seq<L2Block>)
    requires id in groups && groups[id] != []
    requires RecordsOpen(pk.(anchorBlockId := id), groups[id][0], batch, run) && AllOn(anchorOf, run, id)
    ensures Reproposes(anchorOf, pk, groups, batch, run)
  {
    hide AnchorId, Flatten, TxLists, RecordsBlock;
  }

  /** When nothing is expected to reorg, the proposals hold the fetched blocks in anchor order, each block
      once, in batches of its own anchor. */
  lemma {:induction false} ResyncReproposes(anchorOf: AnchorOf, pk: Packing, groups: map<nat, seq<L2Block>>)
    returns (runs: seq<seq<L2Block>>)
    requires GroupsHaveAnchors(groups) && Uniform(anchorOf, groups)
    ensures Flatten(runs) == InOrder(groups) && AllReproposed(anchorOf, pk, groups, Requests(pk, groups), runs)
    decreases |groups|
  {
    if groups == map[] {
      runs := [];
    } else {
      var id := Lists.MinKey(groups);
      var first, later := RequestFromBlocks(pk.(anchorBlockId := id), groups[id]), Requests(pk, groups - {id});
      assert Requests(pk, groups) == first + later;
      assert InOrder(groups) == groups[id] + InOrder(groups - {id});
      var here := GroupReproposed(anchorOf, pk, groups, id);
      hide *;
      var rest := ResyncReproposes(anchorOf, pk, groups - {id});
      FlattenConcat(here, rest);
      MoreGroups(anchorOf, pk, groups, id, later, rest);
      JoinReproposed(anchorOf, pk, groups, first, later, here, rest);
      runs := here + rest;
    }
  }

  /** What grouping gives is what reproposing needs, and anchors that never decrease keep the blocks in order:
      fetched, grouped and reproposed, every block is in one batch of its own anchor, in the fetched order. */
  lemma FetchedReproposed(anchorOf: AnchorOf, pk: Packing, blocks: seq<L2Block>, groups: map<nat, seq<L2Block>>)
    returns (runs: seq<seq<L2Block>>)
    requires AllAnchored(anchorOf, blocks) && GroupsOf(anchorOf, blocks, groups) && Nondecreasing(anchorOf, blocks)
    ensures GroupsHaveAnchors(groups)
    ensures Flatten(runs) == blocks && AllReproposed(anchorOf, pk, groups, Requests(pk, groups), runs)
  {
    forall id | id in groups
      ensures groups[id] != [] && HaveAnchors(groups[id])
      ensures forall b | b in groups[id] :: AnchorId(anchorOf, b) == id
    {
      OnlyIn(anchorOf, blocks, id);
      forall i | 0 <= i < |groups[id]|
        ensures |groups[id][i].txs| > 0
      {
        assert groups[id][i] in blocks;
        var k :| 0 <= k < |blocks| && blocks[k] == groups[id][i];
        assert Anchored(anchorOf, blocks[k]);
      }
    }
    assert GroupsHaveAnchors(groups) && Uniform(anchorOf, groups);
    RegroupingIff(anchorOf, blocks, groups);
    hide *;
    runs := ResyncReproposes(anchorOf, pk, groups);
  }

  // ---- when a batch would reorg ----

  /** How all blocks are proposed together again: on a recent L1 block, at one recent time. */
  function Reanchored(pk: Packing, l1Block: nat, time: nat): Packing {
    pk.(anchorBlockId := l1Block, timestampOverride := Some(time), timeshiftOverride := Some(0))
  }

  lemma {:induction false} TimesWithoutShifts(last: int, params: seq<BlockParams>)
    requires forall i | 0 <= i < |params| :: params[i].timeShift == 0
    ensures forall t | t in Times(last, params) :: t == last
    decreases |params|
  {
    if params != [] {
      var n := |params| - 1;
      TimesWithoutShifts(last - params[n].timeShift, params[..n]);
    }
  }

  ghost predicate OnOneBlock(batch: Batch, run: seq<L2Block>, l1Block: nat, time: nat) {
    && |batch.blockParams| == |run| && batch.anchorBlockId == l1Block
    && forall t | t in Times(batch.lastTimestamp, batch.blockParams) :: t == time
  }

  lemma ReanchoredBatch(pk: Packing, first: L2Block, batch: Batch, run: seq<L2Block>, l1Block: nat, time: nat)
    requires RecordsOpen(Reanchored(pk, l1Block, time), first, batch, run)
    ensures OnOneBlock(batch, run, l1Block, time)
  {
    var pk' := Reanchored(pk, l1Block, time);
    assert Records(pk', first.beneficiary, batch, run);
    forall i | 0 <= i < |run|
      ensures batch.blockParams[i].timeShift == 0
    {
      assert RecordsBlock(pk', batch.blockParams, run, i);
    }
    TimesWithoutShifts(batch.lastTimestamp, batch.blockParams);
  }

  /** All blocks of all groups are then divided in anchor order and each once, all batches are on the given L1 block
      and all their blocks at the given time; and the transactions are those of the blocks exactly when a u16 counts
      each block's. */
  lemma ReanchoredRestores(pk: Packing, groups: map<nat, seq<L2Block>>, l1Block: nat, time: nat)
    returns (runs: seq<seq<L2Block>>)
    requires InOrder(groups) != [] && HaveAnchors(InOrder(groups))
    requires forall i | 0 <= i < |InOrder(groups)| :: WellFormed(InOrder(groups)[i])
    ensures
      var blocks := InOrder(groups);
      var batches := RequestFromBlocks(Reanchored(pk, l1Block, time), blocks);
      && Flatten(runs) == blocks && |runs| == |batches|
      && (forall k | 0 <= k < |batches| :: OnOneBlock(batches[k], runs[k], l1Block, time))
      && (Flatten(ReadTxs(batches)) == TxLists(blocks) <==> CountsFit(blocks))
  {
    var pk', blocks := Reanchored(pk, l1Block, time), InOrder(groups);
    var batches := RequestFromBlocks(pk', blocks);
    runs := BatchesPartitionBlocks(pk', blocks);
    RunsRecord(pk', blocks[0], batches, runs);
    hide RequestFromBlocks, InOrder, Runs, Flatten, ReadTxs, TxLists, CountsFit, HaveAnchors, WellFormed;
    RunsFit(runs);
    RecordTxsIff(pk', batches, runs);
    hide RecordsOpen, Records, Record;
    forall k | 0 <= k < |batches|
      ensures OnOneBlock(batches[k], runs[k], l1Block, time)
    {
      ReanchoredBatch(pk, blocks[0], batches[k], runs[k], l1Block, time);
    }
  }

  lemma {:induction false} GroupInside(groups: map<nat, seq<L2Block>>, id: nat) returns (at: nat)
    requires id in groups
    ensures at + |groups[id]| <= |InOrder(groups)| && InOrder(groups)[at..at + |groups[id]|] == groups[id]
    decreases |groups|
  {
    var least := Lists.MinKey(groups);
    if id == least {
      at := 0;
    } else {
      at := GroupInside(groups - {least}, id);
      at := at + |groups[least]|;
    }
  }

  /** For contiguous blocks with nondecreasing anchors, a group that goes out as one batch decodes from its
      call to that group's first block, last block and anchor. */
  lemma GroupDecodes(abi: Abi, anchorOf: AnchorOf, pk: Packing, blocks: seq<L2Block>, groups: map<nat,
          seq<L2Block>>, id: nat, call: Call)
    requires abi.Valid() && GroupsOf(anchorOf, blocks, groups) && GroupsHaveAnchors(groups) && id in groups
    requires Nondecreasing(anchorOf, blocks) && Contiguous(blocks)
    requires forall b | b in blocks :: b.number + 1 < U64
    requires var requests := RequestFromBlocks(pk.(anchorBlockId := id), groups[id]);
             |requests| == 1 && ProposalOf(call, requests[0])
    ensures
      var group := groups[id];
      DecodeProposal(abi, abi.encode(call)) == Some((group[0].number, group[|group| - 1].number, id))
  {
    var group, pk' := groups[id], pk.(anchorBlockId := id);
    RegroupingIff(anchorOf, blocks, groups);
    var at := GroupInside(groups, id);
    forall i | 0 <= i < |group|
      ensures group[i] == blocks[at + i] && group[i] in blocks
    {
      assert blocks[at..at + |group|][i] == blocks[at + i];
    }
    hide GroupsOf, Only, InOrder, RequestFromBlocks, DecodeProposal, ProposalOf, HaveAnchors;
    assert Contiguous(group);
    OneBatchRecords(pk', group);
    RequestsDecode(abi, pk', group, 0, call);
  }
}
