# A verified model of the go-iost node

go-iost is a blockchain node written in Go.  This project models the parts of it that decide which
blocks become irreversible, which transactions take effect and who pays, as Dafny programs and state
machines, and proves what those parts are there for.  `dafny verify dfyconfig.toml` checks everything.

The main results:

- **Finality.**  The block cache is a forest of linked, single and virtual nodes that adds, links,
  prunes and flushes in place.  Over every run its invariant holds, pushed blocks are never taken
  back, every pushed block is backed by more than two thirds of the active witnesses, and of the
  chains two nodes push under one list one continues the other, unless more than a third of the
  witnesses produced on both branches (`Finality`, `BlockCache`).  Votes, witness lists and the
  switch to a new list are told from the blocks alone (`VoteCount`, `WitnessLists`).
- **Serializability.**  Transactions executed in parallel over one store and accepted by the conflict
  resolution leave the store of every serial order of them, and cannot tell the difference; what is
  recorded, and what is dropped, is exactly what the operations of the runs make it (`Batch`).
- **The write-ahead log.**  At any time reading the files returns exactly the entries saved and not
  removed; if the last record is torn, exactly the earlier ones, without an error; a damaged, foreign or
  missing piece anywhere gives the error, or the earlier entries, of exactly known conditions (`Wal`,
  `WalRead`, `WalDamage`).
- **The transaction pool.**  The 90 second window keeps a transaction from occurring twice unless it is
  pending, the fork search finds the highest common ancestor, and moving to another branch neither loses a transaction
  nor leaves one pending that is on the chain; over every run of cache and pool together the steps that
  break this are exactly known (`RecentBlocks`, `TxMigration`, `PoolRuns`).
- **Merkle trees, permissions, ledgers, numbers, bytes.**  The array tree is the recursive one and its
  paths prove membership; permission evaluation ends on cyclic graphs, is sound for the least solution
  and complete where one way leads to each pair; storage and gas are conserved; fixed-point arithmetic
  and text are exact within stated bounds; the byte encoding can be read back in one way only.

## How it is built

Code that changes things step by step is a class or a method with loops; its contract ties the new
state to a function of the old one, and lemmas prove what is promised about that function.  Some
choices hold throughout:

- The block cache's nodes live in a map from addresses (`BlockTree.Nodes`); an address stands for a
  pointer.
- The hash of a block head is the head itself (`Blocks.Hash`), so hashes do not collide and chains of
  parent hashes end.  A head commits to its transactions by the merkle root it contains, which is why
  `RecentBlocks.Chain` gives the transactions of a head.
- Protocol buffers, checksums and SHA-3 are function parameters.  What is assumed of them is a
  predicate: `WalFrames.Faithful`, `WalRead.DamageShows`, `PendingTxs.Injective`.  `WalExample` has a
  codec that meets the first, and the second for records within one sector.
- Iteration over a Go map is a loop that takes an arbitrary element each time; results hold for every
  order.
- The clock, gas payment inside storage payment and verification of a single transaction are
  parameters.
- Predicates of the form `forall seal :: ...` say the same as their body; the detour keeps proofs from
  unfolding them where that is not needed.

Where the code does something other than its comments or names suggest, the model follows the code,
and the exact condition is proved:

- `updateLongest` compares the leaves with the head that was just removed.  None ever beats it, so the
  search changes nothing, and a flush of another branch leaves the head outside the tree
  (`Finality.HeadInTreeIff`, `Finality.HeadIsBestSoFar`, `HeadLoss.HeadIsLost`).
- `ExistTxs` looks at the pending transactions first, so a transaction can occur twice on a chain,
  exactly if it is pending (`RecentBlocks.RepeatAcceptedIff`, `PoolExample.PendingIsRepeated`).
- `verifyDuplicate` starts from the first block seen of the greatest number, while the pool follows the
  cache's head, which an earlier block of the same number takes over.  A transaction of the head's chain
  can then become pending (`PoolRuns.PendingOffChainIff`, `PoolRuns.HeadsMeetIff`,
  `PoolExample.OfferTakenIn`).
- The map against reentry keeps pairs that are finished, so a permission that holds can be refused where
  two ways lead to one pair (`Authority.EvalComplete`, `AuthorityExample.DiamondRefused`).
- Storing nil is charged but leaves no record, and deleting a record without a payer gives nothing back
  (`RamLedger.PutConservesIff`, `RamLedger.DelConservesIff`).
- A buffered empty value reads as empty before the flush and as absent after it
  (`StateDb.BufferIsTransparent`).
- `ToString` strips the zeros of a negative number twice (`FixedText.RoundTripIff`).
- The overflow test of products misses one pair (`FixedPoint.MultiplyOverflowIff`).
- A single merkle leaf is hashed with itself while its path is empty (`Merkle.SingleLeaf`).
- Subtractions of 64-bit times can wrap (`PendingTxs.ComparesIff`, `PendingTxs.ExpiredIff`).

## Model

| member | source | states |
|---|---|---|
| `BlockCache.BlockCacheImpl.constructor` | core/blockcache/block_cache.go:333-384 | a new cache holds the last pushed block as root and head and satisfies the invariant |
| `BlockCache.BlockCacheImpl.Add` | core/blockcache/block_cache.go:640-662 | a block not above the root is refused, a known one changes nothing, any other is placed below its parent, for which a virtual node is made if it is unknown; the invariant is kept |
| `BlockCacheAdd.AddedInv` | core/blockcache/block_cache.go:640-662 | adding keeps forest, indexes, votes, chain and heights in order, for every block in every state |
| `BlockCacheAdd.AddedIsFound` | core/blockcache/block_cache.go:640-662 | adding answers none exactly for blocks not above the root; otherwise the hash index leads to the answered node |
| `SingleBlocks.WaitsForParent` | core/blockcache/block_cache.go:640-662 | a block whose parent is unknown hangs, single, below a virtual node of the parent's hash, one number lower |
| `BlockCache.BlockCacheImpl.UpdateValidWitness` | core/blockcache/block_cache.go:215-227 | a node takes over its parent's voters and adds its own producer if that is not there yet |
| `BlockCache.BlockCacheImpl.Link` | core/blockcache/block_cache.go:554-573 | a verified node becomes linked with the votes and lists of its parent, replaces it among the leaves and becomes head if it is better; the invariant is kept |
| `BlockCacheSteps.LinkedInv` | core/blockcache/block_cache.go:554-573 | linking keeps the voters of every node duplicate-free and among the producers after the root and in the active list |
| `BlockCache.BlockCacheImpl.DeleteTree` | core/blockcache/block_cache.go:692-703 | the recursion over children removes exactly the subtree and ends |
| `BlockCache.BlockCacheImpl.Del` | core/blockcache/block_cache.go:687-690 | the subtree is removed, the search for a head answers the old one; the invariant is kept |
| `BlockCacheSteps.DeletedInv` | core/blockcache/block_cache.go:687-703 | removing a subtree keeps the invariant |
| `BlockCachePruning.DropMore` | core/blockcache/block_cache.go:692-703 | removing one more subtree after others is removing all of them at once |
| `BlockTree.CutTwice` | core/blockcache/block_cache.go:675-703 | cutting two sets of nodes one after the other is cutting their union |
| `BlockTree.SiblingsDisjoint` | core/blockcache/block_cache.go:692-703 | the subtrees of two children of one node share nothing |
| `BlockCache.BlockCacheImpl.UpdateLongest` | core/blockcache/block_cache.go:627-637 | if the head left the hash index, a leaf that beats it and that no other leaf beats is chosen; else the head stays |
| `BlockCacheSteps.LongestIsOldHead` | core/blockcache/block_cache.go:627-637 | in every state that satisfies the invariant the search over the leaves answers the old head, removed or not: no leaf beats it |
| `BlockCache.BlockCacheImpl.RemoveValidWitness` | core/blockcache/block_cache.go:229-243 | the recursion withdraws the vote exactly below the node, stopping at blocks of the same producer, and ends |
| `BlockCachePruning.NoDoubleWithdrawal` | core/blockcache/block_cache.go:229-243 | withdrawing child by child never withdraws twice |
| `BlockCache.BlockCacheImpl.PruneSiblings` | core/blockcache/block_cache.go:717-727 | every branch off the root but the one flushed is removed |
| `BlockCache.BlockCacheImpl.DelSingle` | core/blockcache/block_cache.go:705-715 | every tenth block, exactly the virtual nodes that are not above the root go, with all below them |
| `SingleBlocks.WaitingAfterFlush` | core/blockcache/block_cache.go:705-785 | after a flush exactly the virtual nodes not above the new root are gone if its number is a multiple of ten, and none otherwise |
| `BlockCache.BlockCacheImpl.Install` | core/blockcache/block_cache.go:733-743 | the old root retires, the block is pushed and becomes root, and the root witnesses are extended or started again |
| `WitnessLists.RootWitnessIs` | core/blockcache/block_cache.go:584-598 | in every state of every run the root witnesses are, each once, the producers of the blocks pushed since the pending list of the root last changed |
| `BlockCache.BlockCacheImpl.Flush` | core/blockcache/block_cache.go:717-785 | a child of the root becomes the root of what remains, its block is pushed, its vote withdrawn, the head stays what it was; the invariant is kept |
| `BlockCacheState.PromotedInv` | core/blockcache/block_cache.go:717-785 | making a root's only child the root, with its vote withdrawn, keeps the invariant |
| `Finality.FlushedInv` | core/blockcache/block_cache.go:717-785 | a whole flush keeps the invariant |
| `Finality.LiveAfterFlush` | core/blockcache/block_cache.go:717-785 | exactly the branch of the flushed block survives |
| `BlockCache.BlockCacheImpl.PathTo` | core/blockcache/block_cache.go:476-494 | the list of blocks by number from the root to a node |
| `BlockCache.BlockCacheImpl.FlushConfirmed` | core/blockcache/block_cache.go:496-515 | the loop ends, having flushed one block after the other along the path to the node, and stops exactly when the rule no longer holds |
| `BlockCache.BlockCacheImpl.CheckUpdateActive` | core/blockcache/block_cache.go:517-535 | true exactly if the votes since the lists changed reach the limit |
| `WitnessLists.SwitchIff` | core/blockcache/block_cache.go:517-535 | over runs, in terms of those producers and of the blocks on the path: exactly when the pending list is made active |
| `BlockCache.BlockCacheImpl.UpdateActive` | core/blockcache/block_cache.go:537-551 | the pending list becomes active on the node and its votes are restricted to it |
| `WitnessLists.ListsAre` | core/blockcache/block_cache.go:537-625 | in every state of every run a node's pending list is the one read at its last ancestor whose number is a multiple of 1200 and for which reading succeeded, and its active list the one last activated on it or inherited |
| `BlockCacheSteps.ActivatedInv` | core/blockcache/block_cache.go:537-551 | changing the active list keeps the invariant |
| `BlockCache.BlockCacheImpl.UpdateLib` | core/blockcache/block_cache.go:476-494 | flushes along the path and then perhaps activates: a run of the steps below, which keeps the invariant |
| `BlockCache.BlockCacheImpl.Find` | core/blockcache/block_cache.go:852-858 | answers the non-virtual node of a hash, if there is one |
| `BlockCache.BlockCacheImpl.GetBlockByNumber` | core/blockcache/block_cache.go:861-881 | between root and head: the head's ancestor of that number while the head is in the tree; the height index stays in order |
| `BlockCacheQuery.QueryAnswersAncestor` | core/blockcache/block_cache.go:861-881 | although the walk stops at the first cached match, the index then holds the head's ancestor at every number from root to head |
| `BlockCacheQuery.QueriedInv` | core/blockcache/block_cache.go:861-881 | a lookup keeps the invariant of the height index |
| `Finality.QueryOverRuns` | core/blockcache/block_cache.go:861-881 | so in every state of every run whose head is in the tree, across switches of head, prunings and earlier lookups |
| `Finality.RunInv` | core/blockcache/block_cache.go:476-785 | the invariant holds in every state of every run of adds, links, flushes, activations, deletions and lookups |
| `SingleBlocks.LeavesAreTips` | core/blockcache/block_cache.go:554-703 | in every state of every run the leaves are linked blocks, entered with their numbers, that no linked block follows, and all linked blocks that nothing follows are among them |
| `VoteCount.VotesAreProducers` | core/blockcache/block_cache.go:215-243 | in every state of every run a witness votes at a node exactly if it produced a block after the root up to it, unless a list without it was activated |
| `VoteCount.ConfirmsIff` | core/blockcache/block_cache.go:496-515 | so a node confirms blocks exactly if it is under the list the root waits for and more than two thirds as many witnesses as there are produced after the root |
| `Finality.FlushIsBacked` | core/blockcache/block_cache.go:496-515 | a flush pushes one block, produced or built on by at least 2N/3+1 distinct witnesses of the active list |
| `Finality.QuorumsIntersect` | core/blockcache/block_cache.go:476-515 | two confirmations under one list of N entries share at least N/3+1 witnesses |
| `Finality.ConflictNeedsDoubleProducers` | core/blockcache/block_cache.go:476-515 | two confirmed blocks of one number need at least N/3+1 witnesses that produced on both branches |
| `Finality.Agreement` | core/blockcache/block_cache.go:496-515 | the same for two flushes of two different nodes of the network |
| `Finality.RunsAgree` | core/blockcache/block_cache.go:496-515 | over any two runs that start from one stored chain and confirm under one list of N entries: one of the pushed chains is a prefix of the other, or from where they first differ at least N/3+1 witnesses produced on both branches |
| `Finality.Irreversible` | core/blockcache/block_cache.go:496-740 | over every run the pushed blocks only grow and are one chain of consecutive numbers, and every linked node that survives descends from the last of them |
| `Finality.PushedIsConfirmed` | core/blockcache/block_cache.go:496-515 | every block pushed in a run was pushed by one flush that confirms it |
| `Finality.NextBlockOk` | core/blockcache/block_cache.go:496-515 | the block flushed next is the root's child on the way to the node, one number higher |
| `Finality.HeadMoves` | core/blockcache/block_cache.go:554-637 | the head changes exactly when a block that beats it is linked; no other step, and no search after a pruning, moves it |
| `Finality.HeadInTreeIff` | core/blockcache/block_cache.go:554-785 | whether the head is in the tree after a step, told from the state before: exactly if it was and the step neither flushes another branch nor deletes its own, or a block that beats it is linked |
| `Finality.HeadOverRuns` | core/blockcache/block_cache.go:554-785 | both at every step of every run |
| `Finality.HeadIsBestSoFar` | core/blockcache/block_cache.go:554-637 | in every state of every run every block that ever was linked is lower than the head, or as high and not earlier, though the head itself may have been pruned |
| `HeadLoss.HeadIsLost` | core/blockcache/block_cache.go:717-785 | a run of four witnesses, each block later than its parent and made by the witness scheduled for its time, in which a confirmation by three of them prunes the head, which stays the head |
| `Slots.SerialCountsRun` | consensus/pob/pob.go:328-337 | the serial number is the length of the run of blocks of one witness and slot that ends in the block |
| `Slots.RefusedIff` | consensus/pob/pob.go:328-337 | a block is refused exactly if the six before it are one run of one witness and slot and it goes on |
| `Slots.WitnessAt` | consensus/pob/properties.go:20-36 | the k-th slot of three seconds belongs to the witness at k modulo the length of the list |
| `Slots.AtMostSixPerSlot` | consensus/pob/properties.go:20-36 | while the active list is unchanged, two blocks of one slot are less than six apart on a chain |
| `StateDb.WriteCache.Flush` | vm/database/write_cache.go:68-76 | the store ends up overlaid with all records, whatever order they are replayed in |
| `StateDb.BufferIsTransparent` | vm/database/write_cache.go:33-76 | for every sequence of puts and deletes: buffering and flushing leaves the store that writing at once would have left, and reads before the flush answer alike, except exactly for a buffered empty value |
| `Batch.Execute` | verifier/batch.go:97-122 | a transaction on its own watcher and cache: buffer, access record and answers are those of its program over the store |
| `Batch.SameKeysSameRun` | vm/database/watcher.go:19-44 | two stores that agree on the keys recorded give the same buffer, record and answers |
| `Batch.BufferedIsWritten` | vm/database/watcher.go:27-36 | what is buffered was recorded as written |
| `Batch.RecordedIff` | vm/database/watcher.go:19-44 | a key is recorded exactly if an operation of the run names it, and as written exactly if one puts or deletes it |
| `Batch.ConflictIffClash` | verifier/batch.go:158-168 | two records conflict exactly if the runs name a key that one of them puts or deletes |
| `Batch.RunIsDirect` | vm/database/write_cache.go:33-81 | a run through buffer and flush gives the answers and the store of one that writes straight to the store and takes back on rollback, if it puts no empty value |
| `Batch.Resolve` | verifier/batch.go:149-172 | for every order of the maps: accepted and dropped share out the non-nil entries, accepted ones are pairwise without conflict, each dropped one conflicts with an earlier entry, and something is accepted if there is anything |
| `Batch.Merge` | verifier/batch.go:158-168 | entering an access map: all of it, or a part up to a conflict, which exists exactly if the entering fails |
| `Batch.SerialIsCommitted` | verifier/batch.go:139-143 | conflict-free transactions run one after the other in any order leave what flushing their buffers in that order leaves, and each does what it did alone |
| `Batch.CommitOrderIrrelevant` | verifier/batch.go:139-143 | the order of flushing does not matter |
| `Batch.BatchIsSerializable` | verifier/batch.go:131-172 | the store after the batch is that of every serial run of the accepted transactions, and each gets the same answers in it |
| `Batch.RunBatch` | verifier/batch.go:59-146 | execution, resolution and commit together end in a store that every serial order of the accepted transactions reaches; left out of accepted and dropped are exactly the failed ones; no two accepted ones clash, and each dropped one clashes with an earlier one |
| `PageWriter.PageWriterImpl.Write` | db/wal/page_writer.go:39-82 | takes every byte: file and buffer together hold what was written; every write to the file ends on a page boundary; the buffer never overruns and the recursion ends |
| `PageWriter.PageWriterImpl.Flush` | db/wal/page_writer.go:85-93 | everything written is in the file and the buffer is empty |
| `PageWriter.PageWriterImpl.CompletePage` | db/wal/page_writer.go:47-67 | the page in the buffer is completed and written, or all input fits before its end |
| `PageWriter.PageWriterImpl.WritePages` | db/wal/page_writer.go:69-77 | whole pages go to the file, less than or exactly one page is left |
| `WalFrames.FrameSizeInverse` | db/wal/encoder.go:76-84 | the length field decodes to the size and the padding, and a padded record fills whole groups of eight bytes |
| `WalFrames.HeaderDecodes` | db/wal/decoder.go:99-107 | the eight header bytes of the frame of a record that fits the 56-bit size decode to its size and padding |
| `WalFrames.FramesAligned` | db/wal/encoder.go:49-84 | frames are multiples of eight bytes |
| `Layouts.HeaderLayout` | db/wal/encoder.go:76-84 | the eight bytes before a record below 2^56 bytes: seven of its length, lowest first, and one that is 0, or 128 and the number of zeros appended |
| `Layouts.FrameLayout` | db/wal/encoder.go:49-74 | after eight bytes comes the record, then less than eight zeros that make it a multiple of eight |
| `WalRead.DecoderImpl.IsTornWrite` | db/wal/decoder.go:110-147 | true exactly if the last file is read and some 512-byte sector of the data is all zero |
| `WalDamage.SectorZeroIff` | db/wal/decoder.go:110-147 | that is, if there is a piece of zeros between ends that are multiples of 512 bytes of the file or the ends of the data |
| `WalRead.DecoderImpl.DecodeRecord` | db/wal/decoder.go:46-97 | one record, or the end, an unexpected end, or an error, with the decoder moved on as the function that the next rows are about says |
| `WalRead.ReadAll` | db/wal/wal.go:120-213 | the loop over records returns what reading as a function does, for every content of the files; the next rows say what that is |
| `WalRead.ReadBack` | db/wal/wal.go:120-156 | over any segments of accepted records and unused space, reading returns the metadata and exactly the entries, with every chained checksum accepted |
| `WalRead.HeaderInOneSector` | db/wal/decoder.go:110-147 | a frame header never straddles two sectors |
| `WalRead.TornWriteReadsPrefix` | db/wal/wal.go:131-183 | if any set of whole sectors of the last record, an entry, is zeroed, reading returns all entries if that changed nothing and else exactly the earlier ones, and never an error |
| `WalDamage.DamageAnswer` | db/wal/decoder.go:68-97 | at any place of any file: a record that does not decode or whose checksum does not follow is an error exactly if a further file follows or no sector of it is all zero; else all entries before it are returned |
| `WalDamage.NextRecordAnswer` | db/wal/wal.go:131-183 | at any place: what a well-formed record of each type does, and which error an entry that does not decode, other metadata, a wrong checksum or an unknown type gives |
| `WalDamage.MissingSegmentAnswer` | db/wal/wal.go:144-151 | if segments are missing, the checksum record of the next one is refused exactly if the checksum so far is not 0, not the one it carries and not its own |
| `WalDamage.CutOffAnswer` | db/wal/decoder.go:46-66 | a record cut off anywhere at the end of its file ends the reading with all entries before it and no error, even if files follow |
| `WalExample.CodecIsFaithful` | db/wal/encoder.go:49-74 | a codec that meets what is assumed of the encodings |
| `WalExample.CodecFits` | db/wal/encoder.go:49-74 | with it, logs can be created and entries of up to a gigabyte saved |
| `WalExample.ShortDamageShows` | db/wal/decoder.go:68-97 | with it, any loss in a record that lies within one sector shows when the record is decoded |
| `WalExample.TornExample` | db/wal/wal.go:131-183 | an entry saved first of all and then torn: every assumption of the result on torn writes is met and the bytes really differ |
| `Wal.SavedOk` | db/wal/wal.go:555-569 | saving an entry that fits the size field keeps the log in good order and adds the entry at the end |
| `Wal.CutOk` | db/wal/wal.go:401-461 | cutting keeps the log in good order and names the segment after the number of entries saved |
| `Wal.RemovedOk` | db/wal/wal.go:240-268 | removing first segments keeps the log in good order: the next begins with a checksum record |
| `Wal.ContentsReadBack` | db/wal/wal.go:120-213 | reading a log in good order returns every entry that was not removed, in order |
| `Wal.WalImpl.constructor` | db/wal/wal.go:66-115 | a new log with checksum record and metadata, in good order, without entries |
| `Wal.WalImpl.Encode` | db/wal/encoder.go:49-74 | the frame of the record is appended and the checksum chained |
| `Wal.WalImpl.OpenSegment` | db/wal/wal.go:401-448 | a new file begins with the checksum so far and the metadata |
| `Wal.WalImpl.SaveEntry` | db/wal/wal.go:555-569 | the entry gets the next index and is on file |
| `Wal.WalImpl.Cut` | db/wal/wal.go:401-461 | the contents stay, the file is named, a new one is opened |
| `Wal.WalImpl.SaveSingle` | db/wal/wal.go:216-237 | answers the number of entries saved; earlier entries stay as they were; a new file is opened exactly if the current one, with the entry, has reached the segment size |
| `Wal.WalImpl.RemoveFilesBefore` | db/wal/wal.go:240-268 | given the index answered for an entry, neither it nor a later one goes, and every remaining named segment reaches that index |
| `Wal.WalImpl.Recover` | db/wal/wal.go:120-213 | at any time, reading the files returns the metadata and exactly the entries not removed, in order |
| `ByteOrder.CompareBytesAntisymmetric` | core/txpool/type.go:146-156 | the order of hashes is antisymmetric and equal only for equal hashes |
| `PendingTxs.ComparesIff` | core/txpool/type.go:146-156 | the comparison agrees with the intended order, both ways, exactly if the deciding difference fits 64 bits |
| `PendingTxs.PrecedesIsOrder` | core/txpool/type.go:146-156 | the intended order is a strict total order |
| `PendingTxs.ExpiredIff` | core/tx/tx.go:314-322 | the age test is exact unless the transaction's time lies 2^63 or more before the block's |
| `PendingTxs.PutSorted` | core/txpool/type.go:175-180 | putting a comparable key keeps the tree sorted and adds exactly it |
| `PendingTxs.RemoveSorted` | core/txpool/type.go:183-193 | removing a comparable key keeps the tree sorted and removes exactly it |
| `PendingTxs.SortedTxMap.Get` | core/txpool/type.go:168-172 | the held transaction of a hash, if there is one |
| `PendingTxs.SortedTxMap.Add` | core/txpool/type.go:175-180 | tree and map hold the same transactions, one more |
| `PendingTxs.SortedTxMap.Del` | core/txpool/type.go:183-193 | tree and map hold the same transactions, without those of the hash |
| `RecentBlocks.BlockchainWrapper.NewBlockTx` | core/txpool/type.go:110-124 | the entry of a block maps each of its transactions' hashes to it |
| `RecentBlocks.BlockchainWrapper.AddBlock` | core/txpool/blockchain_wrapper.go:45-54 | the block is entered unless it is there, the head is the highest seen; no block is an error |
| `RecentBlocks.BlockchainWrapper.GetTxInChain` | core/txpool/blockchain_wrapper.go:71-93 | the walk along parent hashes ends and answers what the recursive search does |
| `RecentBlocks.BlockchainWrapper.ClearBlock` | core/txpool/blockchain_wrapper.go:112-122 | exactly the blocks older than 90 seconds before the root go |
| `RecentBlocks.RecentStaysHeld` | core/txpool/blockchain_wrapper.go:112-122 | over every run of entering and clearing, a block entered and not older than 90 seconds before any root cleared to is still held |
| `RecentBlocks.ClearKeepsLookups` | core/txpool/blockchain_wrapper.go:71-122 | clearing never changes the answer for a block no older than the root |
| `RecentBlocks.LookupIff` | core/txpool/blockchain_wrapper.go:71-93 | on a chain whose recent blocks are held, the lookup finds exactly the transactions of the block and of those at most 90 seconds older |
| `RecentBlocks.ExistTxsIn` | core/txpool/tx_pool.go:243-254 | pending comes before the chain, the chain before not found |
| `RecentBlocks.VerifyBlockTxs` | consensus/pob/algorithm.go:106-129 | accepts exactly if no transaction repeats within the block, none but the base one is on the parent's chain, and the unknown ones verify; each refusal has its reason |
| `RecentBlocks.RepeatAcceptedIff` | consensus/pob/algorithm.go:106-129 | on every chain whose recent blocks were held, a transaction that is not deferred and stands in an earlier block passes verification a second time exactly if it is pending |
| `RecentBlocks.RepeatingBlockIff` | consensus/pob/algorithm.go:106-129 | a block of nothing but repeated transactions is accepted exactly if they differ and are all pending |
| `RecentBlocks.RepeatedOnlyIfPending` | consensus/pob/algorithm.go:106-129 | on an accepted chain whose recent blocks were held, a transaction that is not deferred occurs again only if it was pending when the second block was verified |
| `RecentBlocks.NoTransactionTwice` | consensus/pob/algorithm.go:106-129 | while no pending transaction is on the chain, no transaction that is not deferred occurs twice on it |
| `TxMigration.CacheIsRooted` | core/txpool/tx_migrater.go:75-91 | the block cache's forest is one the search works on |
| `TxMigration.FindFork` | core/txpool/tx_migrater.go:75-91 | the search ends with the highest common ancestor of the two heads, and without one exactly if their paths do not meet |
| `TxMigration.CollectBranch` | core/txpool/tx_migrater.go:93-118 | the transactions from the head up to the fork or the first block that is too old |
| `TxMigration.CollectRecent` | core/txpool/tx_migrater.go:120-159 | the transactions of the recent blocks along the parent hashes |
| `TxMigration.TxPool.UpdateForkChain` | core/txpool/tx_migrater.go:60-73 | the head moves on and the fork is the highest common ancestor, or none |
| `TxMigration.TxPool.GetUpdateTxs` | core/txpool/tx_migrater.go:30-58 | which transactions leave the chain and which come onto it, in each of the three cases |
| `TxMigration.TxPool.AddLinkedNode` | core/txpool/tx_pool.go:184-205 | the block is entered, the first block seen of the greatest number kept, the head is the new node if that is higher than the cache's; pending becomes what it was, with what left the chain, without what came onto it; tree and map stay in step |
| `TxMigration.TxPool.VerifyDuplicate` | core/txpool/tx_pool.go:278-286 | pending comes before the chain of the first block seen of the greatest number |
| `TxMigration.TxPool.VerifyTx` | core/txpool/tx_pool.go:260-276 | the answer for every transaction: more than 10000 pending, deferred, more than 5 seconds ahead or expired or older than 90 seconds, not verified, in that order; else it passes |
| `TxMigration.TxPool.AddTx` | core/txpool/tx_pool.go:208-227 | takes a transaction in exactly if it is neither pending nor found from that block and passes; else nothing changes and the answer says which |
| `TxMigration.TxPool.Clear` | core/txpool/tx_pool.go:292-301 | exactly the blocks more than 90 seconds before the root go, and the pending transactions that are expired or older than 90 seconds and not deferred |
| `TxMigration.PendingStaysOffChain` | core/txpool/tx_migrater.go:93-118 | if nothing pending was on the old chain and that repeats nothing, nothing pending is on the new one, if the new branch lies within the limit |
| `TxMigration.NothingIsLost` | core/txpool/tx_migrater.go:93-118 | what was pending or on the old chain is pending or on the new chain, if the old branch lies within the limit |
| `TxMigration.ChainSplits` | core/txpool/tx_migrater.go:93-118 | a chain is its branch beyond the fork and the chain of the fork, which share nothing if nothing repeats |
| `PoolChains.LookupIsWindow` | core/txpool/blockchain_wrapper.go:71-93 | for a transaction young enough that its blocks are held, the lookup finds exactly those of the blocks of the last 90 seconds before the block it starts from |
| `PoolChains.YoungIsRecent` | core/txpool/tx_migrater.go:120-159 | what is collected from recent blocks has every transaction of the chain that could still get into a block |
| `PoolChains.RecentTxsAre` | core/txpool/tx_migrater.go:120-159 | exactly the transactions to which held blocks lead, parent after parent, none older than the limit |
| `PoolChains.BranchTxsAre` | core/txpool/tx_migrater.go:93-118 | exactly the transactions to which linked nodes lead, parent after parent, without the fork and none older than the limit |
| `PoolRuns.JointRunOk` | core/txpool/tx_pool.go:184-301 | over every run of cache and pool together the blocks of the last 90 seconds of every linked chain are held |
| `PoolRuns.StepIff` | core/txpool/tx_pool.go:184-301 | exactly which steps put a pending transaction that could still get into a block onto the chain of the pool's head, told from the state before |
| `PoolRuns.PendingOffChainIff` | core/txpool/tx_pool.go:184-301 | over every run: no such transaction is ever pending and on the head's chain, exactly if no offered one was overlooked from the block seen first and no abandoned branch repeated one of the chain below the fork |
| `PoolRuns.SameHeadOverlooksNothing` | core/txpool/tx_pool.go:278-286 | nothing is overlooked while the block seen first of the greatest number is the head and not in the future |
| `PoolRuns.NoRepeatsNothingBreaks` | core/txpool/tx_migrater.go:93-118 | a chain without repeats, when abandoned, puts nothing of the new chain back |
| `PoolRuns.CarefulRunIsOff` | core/txpool/tx_pool.go:184-301 | so a run in which both always hold keeps pending and chain apart |
| `PoolRuns.LevelRun` | core/txpool/tx_migrater.go:30-58 | in every state of every run the pool is at the cache's head, but for a block it was not told of, and the block seen first is as high |
| `PoolRuns.HeadsMeetIff` | core/txpool/blockchain_wrapper.go:45-54 | the two are the same block after a notification exactly if the new block is the highest yet, or they were and it does not take over at the same height |
| `PoolExample.OfferTakenIn` | core/txpool/tx_pool.go:278-286 | a run in which a transaction of the head's block becomes pending, the other block of that number having come in first |
| `PoolExample.PendingIsRepeated` | core/txpool/tx_pool.go:243-254 | in that run a chain of three blocks is accepted by the pools of the run although it has the transaction twice |
| `Merkle.LeavesFor` | core/merkletree/merkle_tree.go:18-20 | the smallest power of two not below the number of leaves |
| `Merkle.PairUpAt` | core/merkletree/merkle_tree.go:25-32 | element by element, the hash of two neighbours or of a last one with itself |
| `Merkle.MerkleTree.HashLevel` | core/merkletree/merkle_tree.go:25-32 | one level of the array is hashed into the one above, the rest left alone |
| `Merkle.MerkleTree.Build` | core/merkletree/merkle_tree.go:12-43 | for any number of leaves: the first cell is the recursive pairwise hash, every inner cell is the hash of its children, and every leaf has an index |
| `Merkle.MerkleTree.RootHash` | core/merkletree/merkle_tree.go:46-48 | the recursive pairwise hash of the leaves built from |
| `Merkle.MerkleTree.MerklePath` | core/merkletree/merkle_tree.go:51-70 | a path exactly for the leaves; its length is the logarithm of the leaf number; folded by index parity it gives the root if there are two leaves or more |
| `Merkle.PathFolds` | core/merkletree/merkle_tree.go:51-70 | from every occupied cell, folding the siblings gives the root |
| `Merkle.SingleLeaf` | core/merkletree/merkle_tree.go:51-70 | with one leaf the empty path gives the root exactly if the leaf hashes to itself |
| `Merkle.PathBinds` | core/merkletree/merkle_tree.go:51-70 | a value that folds to the root by any path of equal-length values is the one in the tree, or the folding meets a hash collision |
| `Authority.Evaluation.Auth` | vm/host/authority.go:81-152 | ends on every account graph with the answer and the entered pairs of the recursive evaluation; grants only what has a derivation that uses none of the pairs entered before |
| `Authority.Evaluation.RequireAuth` | vm/host/authority.go:154-162 | a permission granted holds in the least solution of the weighted rules; if no two simple paths of references lead to one pair, it is granted exactly if it holds; the next rows say what signing has to do with it |
| `SigningKeys.PublisherIsSubset` | vm/host/authority.go:107-121 | asking for the publisher's permission is asking with the keys that published as the only ones that signed |
| `SigningKeys.PublishingSigns` | vm/host/authority.go:107-121 | otherwise it makes no difference whether a key signed or published |
| `SigningKeys.UnsignedIsAbsent` | vm/host/authority.go:107-121 | a key that does not count as signed is as good as absent |
| `SigningKeys.SameEval` | vm/host/authority.go:81-152 | of the keys the evaluation takes nothing but which count as signed |
| `SigningKeys.ItemsAre` | vm/host/authority.go:97-105 | the items weighed are the permission's own and those of the groups it names that the account has |
| `Authority.EvalSound` | vm/host/authority.go:81-152 | what the evaluation grants has a derivation that uses no pair under evaluation |
| `Authority.EvalComplete` | vm/host/authority.go:81-152 | what it refuses has none, if there is one simple path to each pair: an entered pair that is not under evaluation is never asked for again |
| `Authority.ItemsComplete` | vm/host/authority.go:117-140 | if the items come out too light, no derivation reaches the threshold |
| `Authority.ReferredOnceIsOneWay` | vm/host/authority.go:81-152 | there is one simple path to each pair if the pairs that can be come to are referred to at most once |
| `AuthorityExample.DiamondRefused` | vm/host/authority.go:82-84 | an account graph with two ways to one pair, whose permission holds and is refused |
| `AuthorityExample.MiddleIsOneWay` | vm/host/authority.go:81-152 | one branch of that graph alone meets the condition and is granted |
| `Authority.HoldsIffFollows` | vm/host/authority.go:81-152 | a pair holds exactly if its rule applies to what holds without it, so cutting cycles loses nothing |
| `Authority.AvoidsUnshown` | vm/host/authority.go:81-152 | what is shown in a number of steps uses no pair that needs more |
| `Authority.HoldsMore` | vm/host/authority.go:81-152 | with non-negative weights, longer derivations and fewer forbidden pairs show no less |
| `RamLedger.TagRoundTrip` | vm/database/serializer.go:31-106 | the payer tag comes back exactly if it has no separator; then so does the value |
| `RamLedger.PutConservesIff` | vm/host/db_handler.go:247-268 | in every state, a put charges every payer the change of the size of the records it pays for, an untagged record counting for its contract, exactly if the value is not nil and the payer is not empty and has no separator |
| `RamLedger.NilIsCharged` | vm/host/db_handler.go:247-268 | storing nil, in any state, is charged for no record |
| `RamLedger.DelConservesIff` | vm/host/db_handler.go:270-281 | a delete does so exactly if the record is absent or names its payer |
| `RamLedger.UntaggedIsNotReturned` | vm/host/db_handler.go:270-281 | deleting a record without a payer gives nothing back |
| `RamLedger.RunConservesIff` | vm/host/db_handler.go:38-154 | over every sequence of puts and deletes by any contracts, the net charge of each payer stays the change of what the records it pays for take, exactly if each operation meets its condition when its turn comes |
| `RamLedger.RunConserves` | vm/host/db_handler.go:38-154 | if all records name their payers at the start, good puts are all it takes |
| `Teller.Host.IsValidKey` | vm/host/db_handler.go:25-35 | true exactly for keys of 1 to 64 allowed characters |
| `Teller.Host.Put` | vm/host/db_handler.go:38-66 | stores the value under the payer given, else the one it had, else the contract, and charges value, contract, key and twice the field; the gas answered is a tenth of the stored length, but at least 300; an invalid key changes nothing and costs 10 |
| `Teller.Host.Del` | vm/host/db_handler.go:76-85 | removes the record and gives its payer the size back; the gas answered is 300; an invalid key changes nothing and costs 10 |
| `Teller.ShareOut` | vm/host/teller.go:90-101 | every payer is charged the sum of its items, and only the named one the computing |
| `Teller.Host.PayCost` | vm/host/teller.go:88-110 | the charges of every payer grow by exactly that |
| `Teller.Host.FlushCacheCost` | vm/host/teller.go:77-80 | the cached cost is charged and empty |
| `Teller.Host.PayStorage` | vm/host/teller.go:174-181 | paid exactly if the balance covers it; then it moves from balance to used storage |
| `Teller.Host.DoPay` | vm/host/teller.go:128-185 | in whatever order and with whatever outcome, balance and used storage of every account add up to what they did, and no balance turns negative; contracts pay nothing themselves; on success every account has paid exactly its own storage and that of contracts it owns, the "iost" domain excepted; it succeeds if all gas payments do, no contract lacks an owner and every balance covers what is due before anything is given back |
| `Teller.OwedIsGrowth` | vm/host/teller.go:161-182 | from puts and deletes that meet their conditions to payment: an account owes exactly the growth of the records it answers for |
| `GasLedger.PledgeInv` | vm/native/gas.go:56-129 | pledging and taking back keep the sum of all pledgers' amounts equal to the total, the limit 300000 times that, and the stock between 0 and the limit; the later error checks cannot fail |
| `GasLedger.CostExact` | vm/host/gas_manager.go:248-278 | paying takes exactly the cost out of pledge gas and transferable gas together, or nothing, and touches no other account |
| `GasLedger.RunInv` | vm/native/gas.go:33-129 | the invariant holds after every sequence of pledging, taking back and paying |
| `GasLedger.GasManager.RefreshPGas` | vm/host/gas_manager.go:238-245 | the stock grows by what came up, to the limit at most |
| `GasLedger.GasManager.CostGas` | vm/host/gas_manager.go:248-278 | succeeds exactly if the two kinds of gas cover the cost; transferable gas is touched only if pledge gas does not cover it, which is then used up; keeps the invariant |
| `GasLedger.GasManager.ChangePledge` | vm/native/gas.go:33-129 | succeeds exactly for a positive amount, or a negative one that leaves the minimum pledge and is covered by the pledger's own; then pledge, total, limit and stock change by the amount, 300000 and, for a positive one, 100000 times it, up to the limit; a refusal changes nothing; keeps the invariant |
| `FixedPoint.MultiplyOverflowIff` | common/fixed.go:39-45 | the overflow test is exact for all 64-bit pairs but (-1, -2^63) |
| `FixedPoint.ChangeDecimal` | common/fixed.go:72-87 | more decimals multiply exactly, or report overflow exactly if the product does not fit; fewer decimals truncate once towards zero |
| `FixedPoint.ShrunkIsSame` | common/fixed.go:89-97 | the number without trailing zeros is the same number |
| `FixedPoint.ShrinkDecimal` | common/fixed.go:89-97 | the loop removes exactly the trailing zeros behind the point |
| `FixedPoint.UnifyDecimal` | common/fixed.go:100-113 | both numbers keep their value at the larger number of decimals, refused exactly if one does not fit |
| `FixedPoint.Add` | common/fixed.go:123-130 | the sum is right exactly if it fits; there is no overflow test |
| `FixedPoint.Multiply` | common/fixed.go:143-151 | the product is exact as a rational number, or refused exactly if it does not fit without trailing zeros, the one pair apart |
| `FixedText.ToStringWithDecimal` | common/fixed.go:254-267 | the digits of the integer part, a point and all decimals |
| `FixedText.ToString` | common/fixed.go:271-286 | the same without trailing zeros; a negative number is stripped twice |
| `FixedText.ParsePositiveFixed` | common/fixed.go:210-242 | reads digits and one point, stops after enough decimals, and reports overflow, a second point or another character |
| `FixedText.NewFixed` | common/fixed.go:195-208 | signs before it negate; an empty text or a leading point is an error |
| `FixedText.ParseNumber` | common/fixed.go:195-242 | digits, a point and at most as many digits as asked for give the number at that many decimals |
| `FixedText.RoundTripPositive` | common/fixed.go:195-286 | for every value that is not negative and every number of decimals, the text reads back as the number |
| `FixedText.RoundTripIff` | common/fixed.go:195-286 | a number comes back exactly if it is not negative, or neither the smallest value nor one with decimals that is a multiple of ten |
| `FixedText.LosesZerosIff` | common/fixed.go:245-286 | that is, a value divisible by one power of ten more than its decimals |
| `FixedText.MinusTen` | common/fixed.go:245-286 | an example: -10.00 prints as -1 |
| `Encoder.Int64Unique` | common/bytes.go:40-44 | a number of 64 bits and what follows are determined by the bytes |
| `Encoder.StringUnique` | common/serialize.go:24-32 | a byte string below 2^31 bytes and what follows are determined by the bytes |
| `Encoder.SliceUnique` | common/serialize.go:50-63 | so are a slice and what follows |
| `Encoder.MapUnique` | common/serialize.go:66-83 | so are a map and what follows |
| `Encoder.ListedOnce` | common/serialize.go:67-77 | there is one ascending list of the keys |
| `Encoder.RecordUnique` | common/serialize.go:24-83 | so are all fields of a record of known shape |
| `Serialize.BubbleSort` | common/serialize.go:71-77 | the keys are in ascending order and a rearrangement of what they were |
| `Serialize.SimpleEncoder.WriteBytes` | common/serialize.go:24-27 | appends length and bytes |
| `Serialize.SimpleEncoder.WriteSlice` | common/serialize.go:50-63 | appends the count and every element |
| `Serialize.SimpleEncoder.WriteMap` | common/serialize.go:66-83 | appends one and the same encoding for every order the keys come in |
| `Serialize.SimpleDecoder.ParseByte` | common/serialize.go:106-113 | the first byte, and the rest left |
| `Serialize.SimpleDecoder.ParseInt32` | common/serialize.go:116-123 | the number whose encoding the input begins with, and the rest left |
| `Serialize.SimpleDecoder.ParseBytes` | common/serialize.go:126-137 | on an encoded byte string: that string, and the untouched rest; breaks off exactly on a negative length; else an error |
| `TxBytes.ActionToBytes` | core/tx/action.go:73-79 | the encoding of the three fields |
| `TxBytes.AmountToBytes` | core/contract/contract.go:142-147 | the encoding of the two fields |
| `TxBytes.SignatureToBytes` | crypto/signature.go:78-84 | the encoding of the three fields |
| `TxBytes.StatusToBytes` | core/tx/tx_receipt.go:53-58 | the encoding of code and message |
| `TxBytes.ReceiptToBytes` | core/tx/tx_receipt.go:92-97 | the encoding of the two fields |
| `TxBytes.ToBytes` | core/tx/tx.go:352-395 | the encoding of the fields of the level |
| `TxBytes.TxReceiptToBytes` | core/tx/tx_receipt.go:184-204 | the encoding of all fields |
| `TxBytes.TxUnique` | core/tx/tx.go:352-395 | transactions with the same bytes at a level have the same fields the level covers; at the full level they are the same |
| `TxBytes.TxReceiptUnique` | core/tx/tx_receipt.go:184-204 | receipts with the same bytes are the same |
| `Layouts.IntegerLayout` | common/bytes.go:40-60 | integers are written highest byte first, negative ones as two's complement |
| `Layouts.TxLayout` | core/tx/tx.go:352-395 | each level appends its fields to those of the level below, in this order |
| `Layouts.BaseLayout` | core/tx/tx.go:352-376 | the fields that are hashed for signing, one after the other |

## Left out

- Network, RPC, command line, configuration, logging, metrics and the virtual machines.
- Goroutines, locks and tickers: operations are single steps.
- Recovery of the block cache from its log, replay mode, and the log entries the cache writes.
- The genesis block and `AddGenesis`.
- The LRU layer under the visitors and `mvccdb`; accesses of delayed-transaction records, which bypass the watcher.
- Fetching and filtering transactions before a batch (`Provider`, expiry, transactions not yet due), and `Verify` of a batch.
- Log directories: file names as text, scanning, locking, preallocation, `RemoveFiles`, `Save` of several entries, and
  appending after a recovery.
- Receipts kept beside the transactions of recent blocks, filling the list of recent blocks at start, deferred
  transactions, and the iteration over pending ones.
- Contract authority, the genesis exception and the costs of evaluating permissions.
- Buying and selling storage, the token contract, voting, and the transferable-gas quota.
- The remaining operations on fixed-point numbers: comparisons, subtraction, scalar products and quotients, floats; the
  error field of the receiver.
- BlockCache.BlockCacheImpl.Link: the lists read from the state database at a vote interval are a parameter.
- BlockCache.BlockCacheImpl.Flush: a failing push to the block database, after which the program logs and goes on, is not
  modelled.
- BlockCache.BlockCacheImpl.CheckUpdateActive: lists are compared as sequences; a nil and an empty list are not told apart.
- Batch.RunBatch: a transaction is a deterministic program over get, has, put, delete and rollback that runs for a
  given number of steps.
- Wal.WalImpl.SaveSingle: indexes are unbounded, not 64-bit; the encoded record must be shorter than 2^56 bytes, the
  limit of the size field.
- Wal.WalImpl.constructor: the records that open a segment must be shorter than that, after any checksum.
- WalRead.TornWriteReadsPrefix: assumes that a damaged payload fails to decode or fails its checksum; it is about what is
  read, not about records appended later.
- PendingTxs.SortedTxMap.Add: the search tree of the library is the sequence of its keys; the transactions must be
  comparable, as those with times and gas ratios that are not negative are.
- RecentBlocks.BlockchainWrapper.GetTxInChain: the times of blocks are unbounded integers.
- TxMigration.TxPool.AddLinkedNode: times and gas ratios of transactions are not negative.
- TxMigration.PendingStaysOffChain: about a fork that was found; `PoolRuns.StepIff` has the other case.
- PoolRuns.PendingOffChainIff: recent blocks are cleared only while the root is not in the future; deferred transactions
  are not offered.
- Merkle.MerkleTree.Build: the leaves are not nil; indexes are unbounded, not 32-bit; appending in place to the bytes of
  a leaf is not modelled.
- Authority.Evaluation.RequireAuth: weights are not negative and add up without overflow; that what holds is granted is
  stated for account names without '@', and the condition for it is sufficient, not necessary.
- Teller.Host.Put: the same for plain keys and map fields; the list of fields of a map is not modelled.
- Teller.Host.DoPay: the payment of gas is a parameter; a contract without owner, on which the program stops, is a
  failure.
- GasLedger.GasManager.RefreshPGas: what came up since the last refresh is any amount that is not negative; amounts are
  unbounded.
- Slots.SerialCountsRun: times are not negative.
