# Verified model of the preconfirmation gateway

The gateway builds L2 blocks from a mempool by concurrent simulation, packs the blocks into batches, encodes
the batches into blobs and posts them on L1, while operators hand over to one another by epoch. This project
models the parts of it that carry state and arithmetic, and proves what they promise over whole runs. Check it
with `dafny verify dfyconfig.toml` (Dafny 4.11).

| files | what they model |
|---|---|
| `Types.dfy`, `TxLists.dfy`, `Simulator.dfy`, `Sorting.dfy`, `SortingRuns.dfy`, `SortingLimits.dfy`, `SortingSteps.dfy` | the sorting engine, beside a bag of simulations that answer in any order |
| `TxPool.dfy`, `TxPoolSteps.dfy` | the transaction pool and its nonce cache, over any sequence of arrivals and blocks |
| `Blob.dfy`, `BlobEncoder.dfy`, `Proposals.dfy` | the blob layout with its decoder, the in-place encoder, and proposals of many blobs |
| `Batches.dfy`, `BatchLimits.dfy`, `Sealing.dfy`, `Resync.dfy` | both batch builders, what L1 reads from a batch, and the regrouping of unproposed blocks |
| `Sequencer.dfy`, `SequencerRuns.dfy`, `SequencerSteps.dfy` | the sequencer's loop: anchors, the pending batch, batches sent, time shifts |
| `Derivation.dfy` | from sealed blocks through batches, blobs and calls to what L1 reads |
| `Lookahead.dfy`, `Handover.dfy` | slot arithmetic, operator handover, and what it promises of the outgoing operator's batches |
| `Context.dfy`, `ContextSteps.dfy` | the local view of both chains under reorgs and gaps |
| `ProposalRetry.dfy`, `ProposalRetrySteps.dfy` | attempts at one batch, the nonces they use, and L1 |

Objects that the program updates in place are classes. Each of their methods is proved equal to a function on
the object's `View()`, and the theorems are about runs of those functions. Loops of the program are loops. The files
named `...Steps.dfy`, and lemmas named `...Meaning`, pin those functions down in terms of the simulator, the clock, the
contract, or the contents before and after.

## How to read the main results

* **Sorting** is sequential: whatever the interleaving of answers, stale answers, arrivals, turns and requests to
  seal, the block is what executing its orders one by one gives, with its totals; the nonce caches are right; the
  counter of simulations out is exact; each applied order is the best payer of its round; with no arrivals sorting
  stops.
* **The pool** keeps a right nonce cache over any run without reorgs, which knows every account our blocks told about
  and never holds a spent transaction of one; a transaction leaves only when it is spent or replaced.
* **Blobs** round-trip in both directions: a blob decodes to the data it encodes, and a blob that decodes is the
  encoding of what it decodes to.
* **Batches** are a lossless, greedy partition of the blocks, read back with the semantics of block parameters
  (a count of transactions and the seconds since the previous block). The two builders agree.
* **The sequencer** puts every sealed block into exactly one batch in every run, on anchors that never decrease and
  are recent when a block starts. The assertions on anchors and time shifts hold under conditions that are shown to be
  exact.
* **Derivation** closes the circle: in every run of the sequencer, reading any publication of its batches gives the
  sealed blocks' anchors, times and transactions, in order, each block once, exactly where the clock moved forward and
  a `u16` counts each block. The same holds of blocks fetched, grouped and proposed again by a resync.
* **Handover** is exclusive except at the instants and for the views that are given exactly, and turns are
  separated; the configured pause is kept exactly when it fits the handover window. An operator whose loop passes
  twice inside the pause has nothing pending when the next one may start.
* **A batch** is included successfully at most once; its fees and retries follow from the failures reported so far.

Results that are false of the code without a condition are stated with it, with an input that breaks them:

* A failed seal after an anchor refresh leaves a batch on the old anchor. A later seal can then stop the process
  exactly when such a batch is stranded and, if the clock moves forward, not yet over 230 seconds old
  (`SequencerRuns.MismatchIffStranded`, `SequencerRuns.StrandedBatchCrashes`).
* The time shift fits a `u8` exactly when target block time and start delay leave 25 seconds
  (`SequencerRuns.ShiftsFitIff`).
* The blob-count assertion rounds down and lets seven blobs through (`Proposals.BlobLimitMetIff`).
* A block over the size target in first place is preceded by an empty batch (`BatchLimits.EmptyBatchIff`), whose
  call decodes to a start block one too high (`Proposals.RequestsDecode`).
* Epoch 0 also marks a view that was never updated. So operators exclude each other, with views at most one epoch
  old, at exactly the instants outside epoch 1 and in its pause (`Lookaheads.ExclusiveIff`), and views of exactly
  the ages in `Lookaheads.ViewSafeIff` never allow more than the schedule.
* A proposal may return without an error and without having landed. On an account with any number of nonces used up
  before, returning is landing in all runs exactly if during the proposal no other transaction uses the account, no
  attempt can revert, and no read lags behind the nonces used up before, of which a fresh account has none
  (`ProposalRetry.ReturnIsLandingIff`). `ProposalRetry.UsedUpRun` and `ProposalRetry.BehindRun` are the runs that
  break it.
* Counts are cast to `u16`, so a batch gives back its blocks' transactions exactly when no block has more than 65,535
  (`Batches.RecordsRestoreTxs`).
* A sent batch's call decodes to its own range exactly when its blocks count the numbers from first to last
  (`Derivation.SentBatchDecodes`), as they do when blocks are numbered one after the other.
* Rebuilt batches carry the first block's proposer, which is every block's exactly when there is only one
  (`Batches.ProposersRestoredIff`).
* The bound on the L1 blocks kept wraps around: on a chain shorter than the safe lag the newest L1 block is the only
  one known and counts as safe (`ContextSteps.ShortChainForgets`); the exact bound is `ContextSteps.L1Meaning`.
* Gaps over 255 seconds, or negative ones, are not restored from a rebuilt batch
  (`Batches.RecordsRestoreTimes`), and anchors that decrease along the fetched blocks reorder them
  (`Resync.RegroupingIff`).

Where comments and code differ, the model follows the code. `crates/sequencer/src/sorting.rs:270` says that an
order with insufficient funds teaches the cache a wrong nonce; for a simulator that checks the nonce first it is
the right one, as `SortingRuns.NonceViewsAgree` shows. `crates/common/src/taiko/pacaya/propose.rs:24` says that a
batch's blocks share a timestamp; the code records a shift for each block. `crates/common/src/taiko/lookahead.rs:321`
says that the lookahead is updated one slot into the epoch; the polling loop waits until after slot 2.

## Hypotheses

* The simulator is a deterministic function of state and order. It checks the nonce before fees and funds, an
  executed order raises only its sender's nonce, and each execution returns a state id that is new
  (`Simulation.WellBehaved`).
* The chain has no reorgs in the pool's runs, other blocks only raise nonces, and the pool's account nonces are
  those of users, not of the account that sends anchor transactions.
* A sealed block has the time it was started for. Where a statement is about its transactions, it is the anchor
  transaction followed by the sorted orders, none of them from the anchor account (`Sealing.HoldsOrders`).
* Operators' views come from one choice of operator per epoch and are at most one epoch old; the beacon
  parameters, the window and the pause are shared; one clock reading serves each call.
* Origin blocks are not ahead of the preconfirmed chain, and preconfirmed blocks carry an anchor call.
* L1 includes one transaction per nonce, and nonce reads may lag but never lead.
* RLP and zlib are a function from a transaction list to a length, the size estimate is a function on lengths,
  and the ABI is an encoding with a decoder that undoes it.

## Model

| member | source | states |
|---|---|---|
| TxLists.ActiveOrders.constructor | crates/sequencer/src/sorting.rs:77-83 | the snapshot holds one list per sender of the pool, heaviest first |
| TxLists.ActiveOrders.Put | crates/sequencer/src/sorting.rs:85-94 | puts an order in its sender's list, or in a new list at the back |
| TxLists.ActiveOrders.RemoveSender | crates/sequencer/src/sorting.rs:106-110 | removes the sender's list |
| TxLists.ActiveOrders.GetNextBest | crates/sequencer/src/sorting.rs:112-125 | pops ready orders in list order and stops at the last pick; which those are, and what is left, is `TxLists.TakeReadyTakesFirst` and `TxLists.TakeReadyContents` |
| TxLists.PutOrderProps | crates/sequencer/src/sorting.rs:85-94 | a put fills its slot, keeps all others and one list per sender |
| TxLists.PutOrderContents | crates/sequencer/src/sorting.rs:85-94 | active after a put are the order and everything but an order of its sender and nonce; a new sender comes last |
| TxLists.DropSenderProps | crates/sequencer/src/sorting.rs:106-110 | removing a sender keeps everyone else's orders |
| TxLists.DropSenderEmpties | crates/sequencer/src/sorting.rs:106-110 | after removing a sender none of its orders is active |
| TxLists.DropSenderContents | crates/sequencer/src/sorting.rs:106-110 | active after a removal is exactly what other senders had |
| TxLists.WeightIsOfLowest | crates/sequencer/src/tx_pool.rs:261-266 | a list weighs what its lowest nonce pays as priority fee |
| TxLists.TakesExactlyDue | crates/sequencer/src/tx_pool.rs:247-259 | with room for every list, taken are exactly the orders due: a list's transaction at the known nonce, or its lowest if the sender is unknown, provided it pays |
| TxLists.DueOrdersTaken | crates/sequencer/src/sorting.rs:118-125 | a due order is left only if a full round was taken, all from lists before its own |
| TxLists.TakeReadyContents | crates/sequencer/src/tx_pool.rs:247-259 | active after picking is exactly what was not taken |
| TxLists.TakeReadyTakesFirst | crates/sequencer/src/sorting.rs:118-125 | the lazy scan picks the first `max` of all orders due, so the heaviest senders'; due is a paying transaction at the known nonce, or an unknown sender's lowest |
| TxLists.TakeReadyLeaves | crates/sequencer/src/tx_pool.rs:247-259 | every transaction is taken or still in its list |
| TxLists.TakeReadyCounts | crates/sequencer/src/tx_pool.rs:247-259 | picking neither loses nor duplicates, and takes at most `max` |
| TxLists.TakeReadyIdle | crates/sequencer/src/tx_pool.rs:247-259 | nothing is picked only if no list has an order due |
| TxLists.TakeReadyOrders | crates/sequencer/src/tx_pool.rs:247-259 | picks pay the base fee, are at the known nonce, and no sender gives two |
| Sorting.SortData.constructor | crates/sequencer/src/sorting.rs:129-161 | the state in which sorting starts |
| Sorting.SortData.NewTx | crates/sequencer/src/sorting.rs:171-184 | a new transaction is ignored if underpriced or spent, else put and wakes sorting |
| Sorting.SortData.MaybeApplyNext | crates/sequencer/src/sorting.rs:187-216 | applies the order held; the two assertions hold |
| Sorting.SortData.SimResult | crates/sequencer/src/sorting.rs:226-308 | ignores stale answers, learns from rejections, keeps the better payer and puts the other back |
| Sorting.SortData.RequestSeal | crates/sequencer/src/sorting.rs:348-350 | makes sealing due and changes nothing else |
| Sorting.SortData.MaybeSimNextBatch | crates/sequencer/src/sorting.rs:317-342 | ends a round, starts the next one, or begins to wait; which orders a round sends is `SortingSteps.TurnMeaning` |
| Simulation.ConsecutiveNonces | crates/sequencer/src/sorting.rs:187-204 | a sender's orders in a replayed block have consecutive nonces from the anchor state on |
| Simulation.ReplayNonces | crates/sequencer/src/sorting.rs:187-204 | a replay raises each account's nonce by the number of its orders |
| SortingRuns.RunInv | crates/sequencer/src/sorting.rs:171-342 | every step of every run keeps the sorting invariant |
| SortingRuns.RunsAreSequential | crates/sequencer/src/sorting.rs:187-204 | state, gas, payment and size are those of executing the orders one by one |
| SortingRuns.NonceViewsAgree | crates/sequencer/src/types.rs:163-173 | a cached nonce is the account's nonce on the current state; the block's nonces are consecutive and its orders pay the base fee |
| SortingRuns.RoundAccounting | crates/sequencer/src/sorting.rs:226-231 | the in-flight counter equals the simulations out on the current state, one per sender, and never underflows; the rejection called impossible is impossible |
| SortingRuns.AppliedOrderIsBest | crates/sequencer/src/sorting.rs:281-307 | the applied order is of its round and pays at least as much as every other that fitted, whose slots are active again |
| SortingRuns.WaitingIsIdle | crates/sequencer/src/sorting.rs:325-341 | while waiting, nothing is out or held, and no list has a paying transaction at its known nonce or, for an unknown sender, as its lowest |
| SortingRuns.SortingTerminates | crates/sequencer/src/sorting.rs:317-342 | with no arrivals, steps and rounds are bounded by the snapshot's size, and until waiting or sealing one more step is possible |
| SortingLimits.OnlyLastOrderOverruns | crates/sequencer/src/sorting.rs:199-206 | in every run only a block's last order can take it over the size limit, and no order follows it |
| SortingLimits.ArrivalsTaken | crates/sequencer/src/sorting.rs:171-184 | in every run an arriving transaction becomes active in place of one with its sender and nonce and wakes the engine, unless underpriced or spent; such a one changes nothing, and a spent one could not execute |
| SortingSteps.ReplyMeaning | crates/sequencer/src/sorting.rs:226-308 | in every run, what each answer does in terms of the simulator: the better payer that fits is held and the other put back, a rejection teaches the account's true nonce, drops a sender without funds, or asks to seal or discard; a stale answer does nothing |
| SortingSteps.TurnMeaning | crates/sequencer/src/sorting.rs:317-342 | in every run, when a turn acts, what applying the held order changes, exactly which due orders are sent, and that the engine waits exactly if there is none |
| SortingSteps.SealSoonMeaning | crates/sequencer/src/sorting.rs:348-350 | a request makes sealing due and does nothing else |
| TxPools.TxPool.constructor | crates/sequencer/src/tx_pool.rs:24-27 | the pool starts empty |
| TxPools.TxPool.Put | crates/sequencer/src/tx_pool.rs:30-47 | drops a cache for another parent, discards spent transactions, overwrites the same nonce |
| TxPools.TxPool.ActiveOrders | crates/sequencer/src/tx_pool.rs:50-71 | the snapshot for a block, under the cache if it is for that block |
| TxPools.TxPool.ActiveForNonces | crates/sequencer/src/tx_pool.rs:74-96 | the eligible lists, forwarded to the known nonces; none is empty |
| TxPools.TxPool.UpdateNewBlock | crates/sequencer/src/tx_pool.rs:128-156 | the state afterwards in both branches, by pruning loops; what that keeps and forgets is `TxPoolSteps.SealedMeaning` |
| TxPools.TxPool.ClearNonces | crates/sequencer/src/tx_pool.rs:158-161 | forgets the cached nonces only |
| TxPools.PruneLoop | crates/sequencer/src/tx_pool.rs:132-139 | pruning entry by entry in any order prunes every list to its known nonce |
| TxPools.SortingLearnsTruly | crates/sequencer/src/types.rs:179-186 | what any sorting run reports to the pool is true of the sealed state |
| TxPools.CacheStaysCoherent | crates/sequencer/src/tx_pool.rs:128-156 | over any run the cache is right about every account it knows, in the block it is in force for; which it knows is `TxPoolSteps.SealedMeaning` |
| TxPools.DropsOnlySpentOrReplaced | crates/sequencer/src/tx_pool.rs:233-237 | a transaction leaves the pool only if its nonce is spent or the same nonce arrived again |
| TxPools.SnapshotStartsReady | crates/sequencer/src/tx_pool.rs:74-96 | a known sender is in the snapshot exactly when the pool holds its transaction at the account's nonce and that pays, and its list starts there |
| TxPoolSteps.ArriveMeaning | crates/sequencer/src/tx_pool.rs:30-47 | a transaction is discarded exactly if the cache in force knows it to be spent; else it fills its slot, all else stays, and a cache for another block is forgotten |
| TxPoolSteps.SnapshotContents | crates/sequencer/src/tx_pool.rs:74-96 | a block starts from exactly the orders offered: from the known nonce on if that one pays, or the whole list of an unknown sender if its lowest pays |
| TxPoolSteps.SealedMeaning | crates/sequencer/src/tx_pool.rs:128-156 | in every run, after our block the cache is in force and knows exactly the accounts told about and, if in force before, those it knew, with their new nonces; exactly the transactions below the nonces told are gone |
| TxPoolSteps.KnownStayUnspent | crates/sequencer/src/tx_pool.rs:128-156 | over any run without reorgs the pool holds no spent transaction of an account the cache in force knows |
| TxPoolSteps.ListsStayFull | crates/sequencer/src/tx_pool.rs:132-139 | over any run no sender is kept with an empty list |
| TxPoolSteps.KnownStaysKnown | crates/sequencer/src/tx_pool.rs:128-137 | while only our own blocks arrive, a known account stays known with its nonce on the latest block |
| BlobLayout.DecodeLayout | crates/common/src/taiko/blob.rs:34-45 | the decoder of the documented layout recovers the data, empty data included |
| BlobLayout.LayoutDecode | crates/common/src/taiko/blob.rs:34-45 | the decoder accepts only blobs that are the encoding of what it returns |
| BlobLayout.SplitJoin | crates/common/src/taiko/blob.rs:121-143 | three bytes survive the split into four six-bit parts |
| BlobLayout.JoinSplit | crates/common/src/taiko/blob.rs:121-143 | and every four six-bit parts are the split of three bytes |
| BlobLayout.HeaderRoundTrip | crates/common/src/taiko/blob.rs:106-112 | the 24-bit length in the header is the data's |
| BlobLayout.PastDataIsZero | crates/common/src/taiko/blob.rs:114-118 | everything past the data is zero |
| BlobLayout.WordsAreFieldElements | crates/common/src/taiko/blob.rs:38-42 | every 32-byte word is below 2^254 and below BLS_MODULUS |
| BlobEncoder.Read1 | crates/common/src/taiko/blob.rs:55-63 | the next byte of the stream, or 0 |
| BlobEncoder.Read31 | crates/common/src/taiko/blob.rs:66-76 | the next 31 bytes of the stream, padded with zeros |
| BlobEncoder.Write1 | crates/common/src/taiko/blob.rs:79-88 | writes one six-bit byte at the start of a word |
| BlobEncoder.Write31 | crates/common/src/taiko/blob.rs:91-99 | writes the other 31 bytes of a word |
| BlobEncoder.ReadFirst | crates/common/src/taiko/blob.rs:106-118 | version, length and up to 27 bytes of data |
| BlobEncoder.EncodeRound | crates/common/src/taiko/blob.rs:101-145 | one round advances the write offset by 128 and lays out 127 bytes of the stream; no assertion fails |
| BlobEncoder.EncodeBlob | crates/common/src/taiko/blob.rs:46-156 | the blob is the layout of the data, so it decodes to the data; all of the data are read |
| Proposals.EncodeBlobs | crates/common/src/taiko/pacaya/propose.rs:81-82 | the blobs of all chunks decode, in order, to the compressed bytes; their number is the length divided by the capacity, rounded up |
| Proposals.BlobProposal | crates/common/src/taiko/pacaya/propose.rs:69-116 | the call carries the batch's fields and the exact counts, whose casts lose nothing; it fails exactly from seven full blobs on |
| Proposals.BlobLimitMetIff | crates/common/src/taiko/pacaya/propose.rs:75-79 | a proposal that passes the assertion has at most six blobs exactly when it fits six |
| Proposals.SevenBlobs | crates/common/src/taiko/pacaya/propose.rs:75-79 | a list of bytes that passes the assertion with seven blobs |
| Proposals.CalldataSizeExactIff | crates/common/src/taiko/pacaya/propose.rs:27-63 | a calldata proposal carries the batch's fields and the data, and names their size exactly up to 4 GiB |
| Proposals.DecodesIffCounted | crates/common/src/taiko/pacaya/propose.rs:118-130 | a call decodes to its batch's end and anchor, and to its start exactly when parameters count the range |
| Proposals.RequestsDecode | crates/common/src/taiko/pacaya/propose.rs:118-130 | for contiguous blocks every batch of the packing decodes to its own range and anchor, the empty one to a start one too high |
| Batches.FilterUserTxs | crates/proposer/src/manager.rs:773-781 | the transactions not sent by the anchor account, in order |
| Batches.UserTxsConcat | crates/proposer/src/manager.rs:773-781 | filtering works part by part |
| Batches.UserTxsHead | crates/proposer/src/manager.rs:773-781 | a transaction is kept exactly if it is not from the anchor account |
| Batches.BuildRequests | crates/proposer/src/manager.rs:737-840 | the loop over mutable batches computes the packing; when it closes a batch is `BatchLimits.BatchesWithinLimits` |
| Batches.BatchesPartitionBlocks | crates/proposer/src/manager.rs:766-837 | the batches record consecutive runs of blocks whose concatenation is the input, with their ranges, anchor, last timestamp, counts, shifts and transactions |
| Batches.TimesExact | crates/proposer/src/manager.rs:806-832 | shifts lead back to given timestamps exactly when each is the gap to the block before |
| Batches.SlicesExact | crates/proposer/src/manager.rs:828-829 | cutting the list by counts cast to u16 gives back the lists it was joined from exactly when each is below 2^16 |
| Batches.RecordsRestoreTxs | crates/proposer/src/manager.rs:783-804 | a batch's list cut by its counts gives every block's user transactions exactly when a u16 counts them |
| Batches.RecordsRestoreTimes | crates/proposer/src/manager.rs:806-832 | without overrides a batch restores its blocks' timestamps exactly when no gap is negative or above 255 |
| Batches.BatchesRestoreBlocks | crates/proposer/src/manager.rs:766-837 | all batches together restore every block's transactions, in order, exactly when a u16 counts each block's, and every timestamp exactly when no gap inside a batch is negative or above 255 |
| Batches.ProposersRestoredIff | crates/proposer/src/manager.rs:749-750 | reading the batches restores every block's proposer exactly when the blocks have only one |
| BatchLimits.BatchesWithinLimits | crates/proposer/src/manager.rs:786-804 | no batch exceeds the block limit, none with two blocks the size target; each later one was opened because with its first block the one before would compress above the target or held the most blocks allowed; the recorded estimate is exact except after a split |
| BatchLimits.OneBatchIff | crates/proposer/src/manager.rs:786-788 | exactly one batch comes out when every prefix of the blocks compresses to the target and is within the block limit |
| BatchLimits.ShiftsExplicit | crates/proposer/src/manager.rs:806-832 | block by block, the recorded shift is the override, or the gap if between 0 and 255, or 0; the last timestamp is the override or the last block's |
| BatchLimits.EmptyBatchIff | crates/proposer/src/manager.rs:739-802 | an empty batch is sent exactly when block 0 alone exceeds the target or no block is allowed; it is the first, and what it holds |
| BatchLimits.ShiftsStartAtZero | crates/proposer/src/manager.rs:806-823 | every batch starts with shift 0; a reorged batch has shift 0 throughout and ends at the override |
| Sealing.SealAllRecords | crates/sequencer/src/sequencer.rs:725-759 | sealing blocks one by one succeeds exactly when every gap fits a u8, and then records them all |
| Sealing.RecordsUnique | crates/sequencer/src/sequencer.rs:725-759 | what is recorded of a run determines the batch up to the size estimate |
| Sealing.BuildersAgree | crates/sequencer/src/sequencer.rs:725-759 | sealing one by one and packing without a split give the same batch up to the size estimate, whenever the gaps fit |
| Resync.Group | crates/proposer/src/manager.rs:159-178 | groups the blocks in order of arrival under the block their anchor calls name, and fails exactly if a block lacks a first transaction that is an anchor call of the anchor account |
| Resync.RegroupingIff | crates/proposer/src/manager.rs:250-253 | reading the groups in key order loses no block, and gives the fetched list exactly when anchors never decrease |
| Resync.ProposeGroups | crates/proposer/src/manager.rs:254-294 | proposes the groups one by one, least anchor first |
| Resync.ResyncReproposes | crates/proposer/src/manager.rs:254-294 | the proposals hold the grouped blocks in order, each once, each in a batch of its own anchor under the group's first proposer |
| Resync.FetchedReproposed | crates/proposer/src/manager.rs:159-294 | blocks fetched with nondecreasing anchors, grouped and proposed again are each in one batch of their own anchor, in the fetched order |
| Resync.ReanchoredRestores | crates/proposer/src/manager.rs:257-350 | if a batch would reorg, all blocks go out again in anchor order, each once, on one given L1 block and at one given time; their transactions are restored exactly when a u16 counts them |
| Resync.GroupDecodes | crates/proposer/src/manager.rs:256-282 | a group sent as one batch decodes to its first block, last block and anchor |
| SequencerLoop.Gateway.constructor | crates/sequencer/src/sequencer.rs:118-152 | no anchor, no pending batch, nothing sent |
| SequencerLoop.Gateway.SendBatchToProposer | crates/sequencer/src/sequencer.rs:784-799 | sends the pending batch, or while sorting asks for the block to be sealed |
| SequencerLoop.Gateway.RefreshAnchorIfNeeded | crates/sequencer/src/sequencer.rs:586-633 | refreshes a missing, old or too full anchor and sends the batch of the old one; when that is, is `SequencerSteps.TickMeaning` |
| SequencerLoop.Gateway.DoTick | crates/sequencer/src/sequencer.rs:189-209 | anchor refresh, then clearing before a handover, then the time-shift check |
| SequencerLoop.Gateway.StartBlock | crates/sequencer/src/sequencer.rs:636-671 | a block starts on the current anchor, target block time after the clock |
| SequencerLoop.Gateway.DiscardBlock | crates/sequencer/src/sequencer.rs:352-362 | a discarded block sends a batch of an outdated anchor |
| SequencerLoop.Gateway.FinishBlock | crates/sequencer/src/sequencer.rs:725-774 | adds the sealed block and the sorted orders to the batch in place, stops the process on another anchor, a shift beyond u8 or disagreeing counts, and sends the last batch of an anchor |
| SequencerRuns.MismatchIffStranded | crates/sequencer/src/sequencer.rs:370-378 | from every reachable state with one anchor, losing a block can lead to a failed anchor assertion exactly when it strands a batch, and with a forward clock exactly when that batch is besides not over 230 seconds old |
| SequencerRuns.BuildsOnAnchor | crates/sequencer/src/sequencer.rs:636-639 | in every run a block is only built on a known anchor |
| SequencerRuns.BatchesKeepTheirAnchor | crates/sequencer/src/sequencer.rs:733-735 | in every run without a stranding loss the pending batch has one anchor and the assertion on it never fails |
| SequencerRuns.StrandedBatchCrashes | crates/sequencer/src/sequencer.rs:370-378 | under every configuration that builds blocks, a run in which a failed seal makes the anchor assertion fail |
| SequencerRuns.OutdatedBlocksSeal | crates/sequencer/src/sequencer.rs:784-792 | in every run a block on an outdated anchor is due to be sealed |
| SequencerRuns.OutdatedBatchesLeave | crates/sequencer/src/sequencer.rs:769-771 | the last block of an anchor closes its batch, which is sent whole |
| SequencerRuns.TickFlushes | crates/sequencer/src/sequencer.rs:200-209 | a tick that must clear leaves no batch, or a block due to be sealed; between blocks no batch is over 230 seconds old |
| SequencerRuns.EverySealedBlockOnce | crates/sequencer/src/sequencer.rs:725-771 | in every run the batches sent and then the pending one record the sealed blocks in order, each once, each batch on one anchor and below the size target before its last block |
| SequencerRuns.BatchReadsBack | crates/sequencer/src/sequencer.rs:736-758 | L1 reads every block's transactions from a sent batch exactly when a u16 counts each block's, and every time exactly when the clock did not run backwards |
| SequencerRuns.ShiftsFitIff | crates/sequencer/src/sequencer.rs:497-503 | the u8 conversion never fails, over all runs, exactly when target block time and start delay are at most 25 seconds |
| SequencerRuns.LateBlock | crates/sequencer/src/sequencer.rs:736-741 | a run in which the conversion fails, for any longer delay |
| SequencerRuns.NeverCrashes | crates/sequencer/src/sequencer.rs:733-756 | with prompt starts, no stranding loss and blocks that have one transaction more than there are sorted orders, no assertion of the sealing code fails |
| SequencerRuns.CountsCrash | crates/sequencer/src/sequencer.rs:752-756 | the count assertion fails in a run only at a block whose count differs from the sorted orders' |
| SequencerSteps.TickMeaning | crates/sequencer/src/sequencer.rs:586-633 | a tick takes the safe L1 block as anchor exactly if there is none, or a later one is safe and the anchor is too old or the batch above target; it sends the batch, or makes sealing due, exactly if the anchor is replaced, the turn ends or the batch is over 230 seconds old |
| SequencerSteps.AnchorIsRecent | crates/sequencer/src/sequencer.rs:598-620 | after a tick that may sequence there is an anchor; if it is below the safe block it is young enough and the batch on it within the target |
| SequencerSteps.StartMeaning | crates/sequencer/src/sequencer.rs:636-671 | in every run a block starts on such an anchor, one target block time after the clock |
| SequencerSteps.GivenUpMeaning | crates/sequencer/src/sequencer.rs:352-378 | a failed publication changes nothing else; a discard sends the batch exactly if the block's anchor is no longer current |
| SequencerSteps.SealedMeaning | crates/sequencer/src/sequencer.rs:725-771 | exactly when sealing stops the process; else how the block ends the pending batch, which stays pending exactly if the block's anchor is current |
| SequencerSteps.AnchorsNeverDecrease | crates/sequencer/src/sequencer.rs:598-601 | over every run, losses included, blocks are sealed on anchors that never decrease |
| Derivation.PrepareBatch | crates/proposer/src/manager.rs:350-385 | compresses and encodes a batch; the call and the sidecar derive the batch's anchor, coinbase, times and transactions |
| Derivation.SealedInOrder | crates/sequencer/src/sequencer.rs:645-653 | with a clock that moves forward, sealed blocks have nondecreasing timestamps |
| Derivation.PreconfirmedIsDerived | crates/sequencer/src/sequencer.rs:725-771 | in every run the batches divide the sealed blocks, and any publication of a batch derives its blocks exactly when their counts fit and the clock moved forward over them |
| Derivation.SentBatchDecodes | crates/common/src/taiko/pacaya/propose.rs:118-130 | a sent batch's call decodes to its first block, last block and anchor exactly when it holds as many blocks as there are numbers between |
| Derivation.SentBatchesDecode | crates/common/src/taiko/pacaya/propose.rs:118-130 | every batch of a run with consecutively numbered blocks decodes to its own range and anchor |
| Derivation.SealedBlockReplays | crates/sequencer/src/sequencer.rs:752-758 | a block that holds the sorted orders has exactly them as user transactions, and executing these one by one gives the state it was sealed from |
| Derivation.ReproposedIsDerived | crates/proposer/src/manager.rs:256-282 | a batch rebuilt by resync derives its blocks on their own anchor, under the proposer of that anchor's first block, exactly when their counts and gaps fit |
| Derivation.ResyncedIsDerived | crates/proposer/src/manager.rs:159-294 | blocks fetched, grouped, proposed again and published are divided in order, each once, and every batch derives its own exactly when their counts and gaps fit |
| Derivation.SealedRegroups | crates/proposer/src/manager.rs:250-253 | what any run of the sequencer sealed is put in its order again when grouped by anchor |
| Beacons.Beacon.SlotBefore | crates/common/src/beacon.rs:21-23 | slots are exactly the intervals between their timestamps |
| Beacons.Beacon.EpochBefore | crates/common/src/beacon.rs:26-38 | epochs are exactly the intervals between their first slots |
| Beacons.Beacon.TimestampRoundTrip | crates/common/src/beacon.rs:40-47 | a slot's timestamp is in that slot, except that slot 0 starts at genesis, which the assertion refuses |
| Lookaheads.LookaheadHandle.constructor | crates/common/src/taiko/lookahead.rs:286-303 | a handle starts with a copy of the shared view |
| Lookaheads.LookaheadHandle.MaybeRefresh | crates/common/src/taiko/lookahead.rs:305-310 | the copy is reread after more than 500 ms |
| Lookaheads.LookaheadHandle.MaySequence | crates/common/src/taiko/lookahead.rs:323-367 | the decision on the refreshed copy, whose meaning on the clock is `Lookaheads.ViewTurns`; disabled preconfirmations refuse without a refresh |
| Lookaheads.LookaheadHandle.MayPropose | crates/common/src/taiko/lookahead.rs:369-391 | the decision on the refreshed copy |
| Lookaheads.LookaheadHandle.MustClearProposal | crates/common/src/taiko/lookahead.rs:394-424 | the decision on the refreshed copy |
| Lookaheads.TurnsAreScheduled | crates/common/src/taiko/lookahead.rs:340-367 | views that lag or miss never allow more than the contract's schedule; a complete one of this epoch allows exactly it, one of the epoch before exactly `Lookaheads.LaggingViewTurns` |
| Lookaheads.ViewTurns | crates/common/src/taiko/lookahead.rs:323-424 | for any view and any instant of an epoch, on the clock, exactly who sequences, proposes and clears |
| Lookaheads.CurrentViewTurns | crates/common/src/taiko/lookahead.rs:323-424 | a complete view of this epoch: its operator sequences up to the window, or on into its own next epoch; the next one after the pause |
| Lookaheads.LaggingViewTurns | crates/common/src/taiko/lookahead.rs:321-351 | a complete view of the epoch before allows exactly this epoch's operator, up to the cutoff |
| Lookaheads.OneSequencer | crates/common/src/taiko/lookahead.rs:323-367 | with truthful views at most one epoch old, none of epoch 0 after it, no two operators may sequence at the same instant |
| Lookaheads.ExclusiveIff | crates/common/src/taiko/lookahead.rs:323-367 | truthful views at most one epoch old exclude two operators exactly at the instants outside epoch 1 and in the pause of epoch 1 |
| Lookaheads.ViewSafeIff | crates/common/src/taiko/lookahead.rs:340-345 | for every age of a view, exactly when it can allow no operator beyond the schedule |
| Lookaheads.TurnsApart | crates/common/src/taiko/lookahead.rs:332-338 | turns of different operators are further apart than the shorter of pause and window |
| Lookaheads.PauseKeptIff | crates/common/src/config.rs:205-210 | the configured pause separates all turns exactly when it fits the handover window |
| Lookaheads.OneProposer | crates/common/src/taiko/lookahead.rs:369-391 | only the contract's operator of the epoch may propose |
| Lookaheads.ClearsIff | crates/common/src/taiko/lookahead.rs:394-424 | batches are cleared exactly when a current view still allows proposing but no longer sequencing |
| Lookaheads.SentinelBreaksExclusion | crates/common/src/taiko/lookahead.rs:340-345 | two operators at once, when a view of epoch 0 is used in epoch 1 |
| Lookaheads.StaleViewBreaksExclusion | crates/common/src/taiko/lookahead.rs:340-345 | two operators at once, when a view is two epochs old |
| Handovers.LatePassesSettle | crates/sequencer/src/sequencer.rs:178-210 | from the cutoff on, one pass ends the block being built and from the second on nothing is pending |
| Handovers.NextStartsAfterPause | crates/common/src/taiko/lookahead.rs:336-338 | in an epoch another operator may only sequence after the cutoff and the pause |
| Handovers.NothingPendingAtHandover | crates/common/src/taiko/lookahead.rs:393-424 | after two late passes the outgoing operator has sent every block it sealed and builds none, and if they fall inside the pause that is before any other operator may sequence |
| ChainContext.SequencerContext.constructor | crates/sequencer/src/context.rs:51-71 | the context starts empty |
| ChainContext.SequencerContext.UpdateParentBlockId | crates/sequencer/src/context.rs:188-208 | appends the block and takes its anchor id, as far as its anchor transaction allows |
| ChainContext.SequencerContext.NewPreconfL2Block | crates/sequencer/src/context.rs:89-186 | all branches: first, next, reorg, seen, gap, unhandled |
| ChainContext.SequencerContext.NewOriginL2Block | crates/sequencer/src/context.rs:212-240 | verifies or drops pending verifications and pops posted blocks |
| ChainContext.SequencerContext.NewL1Block | crates/sequencer/src/context.rs:73-84 | keeps the L1 blocks within the lag, in u64 arithmetic |
| ChainContext.PreconfMeaning | crates/sequencer/src/context.rs:96-186 | a block extends the chain, replaces its tail or changes nothing; it reorgs exactly when the chain has another block of its number, and is then last |
| ChainContext.PreconfVerifies | crates/sequencer/src/context.rs:92-94 | exactly what waits for verification afterwards; a reorging block of ours does not |
| ChainContext.LateBlocksWait | crates/sequencer/src/context.rs:170-182 | a block of ours waits for verification off the chain exactly if it came late, below the last block at a number the chain lacks |
| ChainContext.PruneKeeps | crates/sequencer/src/context.rs:231-239 | pruning keeps exactly the blocks from the origin on, and empties the chain exactly when the origin is ahead |
| ContextSteps.OriginMeaning | crates/sequencer/src/context.rs:212-240 | a posted block no longer waits; the earlier ones are given up exactly if it did not wait; the chain keeps exactly the blocks from it on |
| ContextSteps.WaitsUntil | crates/sequencer/src/context.rs:92-94 | over every run a block of ours waits until it or a later one is posted, or one of its number or below arrives |
| ContextSteps.PostedIsSettled | crates/sequencer/src/context.rs:215-229 | after a block is posted nothing up to it waits, except below one that waited itself |
| ContextSteps.UndecodableMeaning | crates/sequencer/src/context.rs:188-208 | a block without a readable anchor call moves the chain like any other and leaves the parent anchor |
| ContextSteps.MissingMeaning | crates/sequencer/src/context.rs:188-208 | a block without transactions reorgs like any other but is not added to the chain |
| ChainContext.ContextInvariant | crates/sequencer/src/context.rs:89-240 | over any orderly stream the chain increases, starts no earlier than the origin, is not empty, and the parent anchor is its last block's; pending verifications are for blocks of ours not above the chain, and for the chain's own block where it has that number |
| ChainContext.SafeL1InLag | crates/sequencer/src/context.rs:73-84 | the safe L1 block is the oldest one known within the lag |
| ChainContext.SafeL1Lags | crates/sequencer/src/context.rs:242-244 | on consecutive L1 blocks the safe one lags by exactly the configured number |
| ContextSteps.L1Meaning | crates/sequencer/src/context.rs:79-80 | exactly which L1 blocks are kept, including where the bound wraps around |
| ContextSteps.ShortChainForgets | crates/sequencer/src/context.rs:79-80 | on a chain shorter than the lag only the newest L1 block is known, and counts as safe |
| ProposalRetry.Proposal.constructor | crates/proposer/src/manager.rs:414-420 | the retry loop starts with no nonce reserved |
| ProposalRetry.Proposal.BeginAttempt | crates/proposer/src/manager.rs:562-569 | a nonce above the last used one ends the proposal, any other is reserved |
| ProposalRetry.Proposal.ReceiptFailed | crates/proposer/src/manager.rs:702-704 | a mined but reverted attempt frees the nonce |
| ProposalRetry.Proposal.Failed | crates/proposer/src/manager.rs:422-537 | what each kind of failure changes, and whether to retry, stop or panic |
| ProposalRetrySteps.FailureMeaning | crates/proposer/src/manager.rs:422-537 | a failure changes the fee it is about, one retry if it has no known remedy, never the nonce; exactly which failures stop the loop, and when it panics |
| ProposalRetrySteps.FeesFollowFailures | crates/proposer/src/manager.rs:414-537 | in every run the bump, each cap, the retries and the outcome are what the list of failures reported so far says |
| ProposalRetrySteps.ReturnsIff | crates/proposer/src/manager.rs:562-567 | in every run the proposal returns exactly on reading a nonce above the last used one, or on the receipt of a success |
| ProposalRetrySteps.RevertedIsResent | crates/proposer/src/manager.rs:702-704 | after a reverted attempt that is retried, the next one is sent with whatever nonce is read |
| ProposalRetry.RunKeeps | crates/proposer/src/manager.rs:562-569 | over all runs at most one nonce of the batch has a chance, and the last used one is not above it |
| ProposalRetry.AtMostOneSuccess | crates/proposer/src/manager.rs:413-441 | over any timeouts, errors, lagging reads and reverts at most one attempt is included successfully |
| ProposalRetry.RetriesAreBounded | crates/proposer/src/manager.rs:516-534 | the loop panics exactly at the third failure that counts |
| ProposalRetry.ReturnMeansLandedIff | crates/proposer/src/manager.rs:564-567 | where reads do not lag, whether a batch that returned on a used-up nonce landed is decided by that one nonce |
| ProposalRetry.ReturnedWithoutLanding | crates/proposer/src/manager.rs:564-567 | a run that returns without an error although the only attempt reverted |
| ProposalRetry.ReturnIsLandingIff | crates/proposer/src/manager.rs:562-569 | on an account with any nonces used up, over all runs, returning without an error means landing exactly if meanwhile nothing else uses the account, no attempt can revert, and no read lags behind the nonces used up before |
| ProposalRetry.UsedUpRun | crates/proposer/src/manager.rs:562-569 | a run in which another transaction or a reverted attempt uses up the nonce, and the proposal returns |
| ProposalRetry.BehindRun | crates/proposer/src/manager.rs:562-569 | a run in which a read lags on an account used before, nothing else happens to it, and the proposal returns |

## Left out

- RPC servers, subscriptions, block fetchers, gossip of soft blocks, builder bundles, config and alerts: input and output only.
- KZG commitments, signing, zlib, RLP and ABI internals: functions with stated properties.
- The size estimate, the throttle factor and the telemetry rates: floating point; the estimate is a parameter.
- Fee estimation and fee caps beyond what a failure changes: arithmetic around RPC calls.
- Wall-clock scheduling, channels and sleeps: the environment chooses when steps happen and what they observe.
- Overflow of u64, u128 and usize sums (payments, sizes, nonces plus one): taken as unbounded; casts and differences the code relies on are modelled.
- `TxList` and the nonce caches are values inside their owners' fields: nothing else holds a reference to them.
- The unused `update_reset` and the random sanity check of the pool: not called, or diagnostics.
- `validate_batch_params`, and so whether a resync proposes the same batches or re-anchors them: checks against L1 without keeping state; both ways of proposing are modelled.
- The "already pending" test of resync: it only skips the validation of a batch, which is proposed all the same.
- The resync after a restart, and L1 reorgs after inclusion: the run of one proposal ends at its return.
- The polling loop that reads the operators: its result is the hypothesis on views.
- The checks before a block starts (parent anchor, delays, operator flags, status of the head) and the block range `check_resync` asks for: they only decide whether and when steps happen; being allowed to sequence and being below the size target are modelled.
- Verdict strings of the lookahead and log messages.
- Other gateways' blocks inside a pending batch: the process stops by design when one reorgs the batch.
