# Redis 5.0.10: cluster epochs and slots, the append-only file, blocked clients and bit operations

A Dafny model of the parts of the bundled Redis 5.0.10 whose correctness depends on many
functions, or many nodes, agreeing: the cluster bus, append-only-file durability, clients
blocked on keys with the slot-to-key index, and the bit tricks and checksums.  Code that changes
state in place is a class or a method with loops, proved against functions on values; the
properties are lemmas about those functions.  Protocols are state machines: an event, a function
from one state to the next, and lemmas about every state of every run.

Verify with `dafny verify dfyconfig.toml`.

## Files

- `Common.dfy`: Option, powers of two, sizes of subsets.
- `ClusterModel.dfy`: one node's view of the cluster, and the epoch and voting rules.
- `Election.dfy`, `ElectionSafety.dfy`: nodes and messages together; epoch dominance; at most one winner an epoch.
- `SlotModel.dfy`, `SlotMerge.dfy`, `ClusterNode.dfy`: the slot table and its bitmaps, claims heard in any order, and the class whose methods change them.
- `EpochCollisions.dfy`: how many moves the collision rule makes, and when it stops.
- `Resp.dfy`, `AofLoad.dfy`, `AofRecovery.dfy`, `AofRefusals.dfy`, `AofWriter.dfy`: the log's format, its loader, what a crash leaves, what is refused, and the buffered writer.
- `AofRewrite.dfy`: parent, child and pipe during a background rewrite.
- `Dataset.dfy`, `DatasetRewrite.dfy`, `DatasetFile.dfy`: the keyspace, the commands that rebuild it, their bytes, and the writes fed meanwhile.
- `RewriteCycle.dfy`: a rewrite from the fork to the next start.
- `AdList.dfy`: the doubly linked list, pointer by pointer.
- `BlockedIndex.dfy`, `BlockedServe.dfy`, `BlockedRun.dfy`, `BlockedCommands.dfy`, `BlockedServer.dfy`: who waits for what, serving one key, whole rounds of serving, the commands between rounds, and the class.
- `SlotToKeys.dfy`: the keyspace of a cluster node with expires, counters and ordered index.
- `Popcount.dfy`, `Bitpos.dfy`, `Bitfield.dfy`, `Bitop.dfy`: the bit commands.
- `CrcTable.dfy`, `Crc64.dfy`, `DumpPayload.dfy`: the 64-bit checksum and the DUMP trailer.

## Where the code does less than one would expect

- Elections.  Re-arming an election (cluster.c:3049-3054) clears the vote count but leaves the
  old election epoch in place until votes are asked for again (cluster.c:3113-3119).  An ACK for
  the old epoch that arrives in between is counted towards the new one.  `StaleAckElectsTwo` is
  such a run with two winners of one epoch; `AckKeepsTalliesIffNotStale` says that these ACKs
  are exactly the ones that spoil the count.
- Crash recovery.  A log cut in the middle of a command inside an open MULTI is truncated to its
  last whole command (aof.c:877-900), not to the start of the transaction, unlike a log that ends
  between commands (aof.c:849-858).  The MULTI stays, and what is appended next is queued
  behind it by the next load.  `RecoveryIsSafeIff` gives the exact condition, and
  `AppendAfterOpenMultiIsLost` the shortest such log: the appended write is discarded.
- Blocked clients.  Only dbAdd marks a key ready (db.c:173-182); dbOverwrite does not
  (db.c:189-206).  A client that blocks on a missing key which is then created with another type
  is not marked when a list replaces that value, as SORT with STORE does (sort.c:565-567):
  `OverwrittenWaiter` is such a history, with no empty list anywhere, that ends with a client
  waiting beside a full list and nothing to wake it.  Pushing to a list that exists but is empty
  marks nothing either; no command leaves one behind, but a dump file may hold one
  (rdb.c:1438-1454), and `EmptyTargetWaiter` is such a state.  `CommandKeepsAlertIff` and
  `DeliverKeepsAlertIff` say for every command, and for serving a client, that these are exactly
  the cases in which somebody is overlooked.
- Bit fields.  The comment on the overflow checks (bitops.c:265-286) announces -1 for underflow;
  under WRAP both checks return 1 either way, which their callers do not distinguish.  SET checks
  its argument itself.  The signed check computes max minus value in 64 bits even when the value is
  far below the range; with two's complement wrap-around SET then saturates at the wrong end,
  exactly as `SetSaturatesIff` says (`LeastValueSaturatesHigh` is an input).  (Signed overflow is
  undefined in C; the model wraps around.)  The unsigned check sees a negative argument as a huge
  one, so SAT ends at the maximum instead of zero, exactly as `UnsignedSetSaturatesIff` says
  (`NegativeSaturatesHigh`).
- Slots.  clusterUpdateSlotsConfigWith takes the master of a slave without checking that it is
  known (cluster.c:1569) and reads through the pointer when a slot was taken from it
  (cluster.c:1621-1628).  With the master unknown every slot that had no owner counts as taken
  from it, so the null pointer is read exactly when another node claims, with redirections
  allowed, a slot that is free and not being imported: `UpdateSlots` returns `dies` in that case
  and no other, and `UnknownMasterReadsNull` is a state.  Forgetting one's own master leads there
  (`ForgettingOwnMaster`).  A node that starts without assigned slots survives a sequence of
  claims exactly when it knows its master, or nobody claims a slot (`SurvivesIff`).
- Epochs.  No step lowers an epoch a node has of its own, or the one it holds for a node it still
  knows; but a node that is forgotten and met again starts from epoch zero.

## Model

| member | source | states |
|---|---|---|
| Election.ReceivingKeepsDominance | Linux/lesson07/redis-5.0.10/src/cluster.c:1733-1744 | a node that adopts a header, resolves a collision, counts an ACK or takes an UPDATE still knows no configuration epoch above its current epoch; its current, voting, election and own configuration epochs do not go back, nor does the epoch of any node it knows |
| Election.LocalStepsKeepDominance | Linux/lesson07/redis-5.0.10/src/cluster.c:2977-3146 | re-arming, asking for votes, voting, winning and bumping keep the current epoch at or above every configuration epoch known, and lower no epoch |
| Election.BuiltHeaderIsDominated | Linux/lesson07/redis-5.0.10/src/cluster.c:2278-2350 | a header never carries a configuration epoch above its current epoch, also when a slave speaks with its master's epoch |
| ClusterModel.SpeaksFor | Linux/lesson07/redis-5.0.10/src/cluster.c:2278-2350 | a header carries the epoch and slots of the sender, or of its master if it is a slave with one |
| ClusterModel.UpdateIsBelieved | Linux/lesson07/redis-5.0.10/src/cluster.c:2100-2120 | an UPDATE leaves the reported node at the greater of both epochs, and a master if the report was newer; every other node is as before |
| ClusterModel.SetEpochTakes | Linux/lesson07/redis-5.0.10/src/cluster.c:4745-4780 | SET-CONFIG-EPOCH takes effect exactly on a node that knows no other and has no epoch yet; the current epoch then does not lie below it |
| Election.DominanceStep | Linux/lesson07/redis-5.0.10/src/cluster.c:1658-2140 | one event anywhere in the cluster keeps dominance at every node and in every message in flight; no node's current, voting, election or own configuration epoch decreases, nor does the epoch it holds for a node known before and after |
| ElectionSafety.EpochDominance | Linux/lesson07/redis-5.0.10/src/cluster.c:1733-1744 | in every state of every run current epochs dominate the configuration epochs known and carried, and along the run every node's current, voting, election and own configuration epochs only grow |
| ElectionSafety.BallotsThroughout | Linux/lesson07/redis-5.0.10/src/cluster.c:2737-2838 | in every state of a lawful run: one grant per voter and epoch, each ACK in flight stands for one uncounted grant, counters equal the votes counted, every win is backed by a majority of grants |
| ElectionSafety.OneWinnerPerEpoch | Linux/lesson07/redis-5.0.10/src/cluster.c:3122-3143 | two wins of one epoch are the same win, because two majorities share a voter and a voter grants an epoch once |
| ElectionSafety.ElectionSafety | Linux/lesson07/redis-5.0.10/src/cluster.c:2737-2838 | in a run with a fixed electorate in which no stale ACK is counted, at most one slave wins a given epoch |
| ElectionSafety.GrantsTraced | Linux/lesson07/redis-5.0.10/src/cluster.c:2737-2838 | every grant in a run goes back to a request for that epoch which the voter received while eligible and without objection |
| ElectionSafety.ObjectorsPrevent | Linux/lesson07/redis-5.0.10/src/cluster.c:2737-2838 | if at least half of the voters, whenever they received a slave's request for an epoch, knew a newer owner of a slot it claimed or its master as up, the slave never wins that epoch |
| ElectionSafety.AckKeepsTalliesIffNotStale | Linux/lesson07/redis-5.0.10/src/cluster.c:2076-2088 | delivering an ACK leaves the vote counters equal to the votes for the election in progress if and only if the ACK is not a stale one: counted between a re-arm and the next request |
| ElectionSafety.StaleAckElectsTwo | Linux/lesson07/redis-5.0.10/src/cluster.c:3049-3119 | a concrete run with a fixed electorate in which a stale ACK lets two slaves win the same epoch |
| SlotModel.BindSlot | Linux/lesson07/redis-5.0.10/src/cluster.c:3743-3748 | assigning a free slot and setting one bit is rebuilding all bitmaps and counts from the table |
| SlotModel.UnbindSlot | Linux/lesson07/redis-5.0.10/src/cluster.c:3753-3760 | the owner of a slot always has the bit set, so the assertion in clusterDelSlot holds; clearing it is rebuilding all bitmaps from the table |
| SlotModel.UpdateKeepsCoherence | Linux/lesson07/redis-5.0.10/src/cluster.c:1553-1647 | merging a claim keeps table, bitmaps and counts in agreement, also when this node turns into a replica, whether or not a slave knows its master |
| SlotModel.EqualBitmapChangesNothing | Linux/lesson07/redis-5.0.10/src/cluster.c:1962-1974 | a claim equal to the recorded bitmap would change nothing at all and read no null pointer, so skipping it is safe |
| SlotModel.NullLosesIff | Linux/lesson07/redis-5.0.10/src/cluster.c:1579-1613 | with an unknown master, a slot counts as lost by it if and only if some claimed slot is free and not being imported, whatever the epochs |
| SlotModel.ForgettingOwnMaster | Linux/lesson07/redis-5.0.10/src/cluster.c:876-898 | a slave that forgets its own master is left with none |
| SlotModel.UnknownMasterReadsNull | Linux/lesson07/redis-5.0.10/src/cluster.c:1569-1628 | a coherent state of two nodes in which a claim of one free slot reads the null master |
| SlotMerge.ClaimKeepsObserver | Linux/lesson07/redis-5.0.10/src/cluster.c:1962-1974 | with or without the bitmap-equality shortcut, a claim leaves the merged owners, a coherent table and every other claimant's epoch as it was, and the master known or unknown as it was |
| SlotMerge.ClaimSettles | Linux/lesson07/redis-5.0.10/src/cluster.c:1579-1613 | one more claim keeps every slot with the greatest-epoch claimant among those heard |
| SlotMerge.SurvivesIff | Linux/lesson07/redis-5.0.10/src/cluster.c:1569-1628 | from an unassigned table no claim of a sequence reads the null master if and only if this node knows its master, or redirections are off, or nobody claims a slot |
| SlotMerge.GreatestEpochWins | Linux/lesson07/redis-5.0.10/src/cluster.c:1553-1613 | after any sequence of claims that is survived, with repetitions, every slot belongs to its greatest-epoch claimant among the senders, or to nobody if none claims it |
| SlotMerge.OrderIndependence | Linux/lesson07/redis-5.0.10/src/cluster.c:1553-1613 | two sequences of claims with the same senders, in any order and repetition, are survived alike and end with the same owners when epochs are distinct |
| ClusterNode.ClusterState.NodeSetSlotBit | Linux/lesson07/redis-5.0.10/src/cluster.c:3702-3724 | sets the bit, counts it once, returns what it was |
| ClusterNode.ClusterState.NodeClearSlotBit | Linux/lesson07/redis-5.0.10/src/cluster.c:3727-3732 | clears the bit, uncounts it once, returns what it was |
| ClusterNode.ClusterState.AddSlot | Linux/lesson07/redis-5.0.10/src/cluster.c:3743-3748 | fails and changes nothing exactly when the slot is taken; otherwise table, bitmaps and counts agree on the new owner |
| ClusterNode.ClusterState.DelSlot | Linux/lesson07/redis-5.0.10/src/cluster.c:3753-3760 | fails exactly when the slot is free; otherwise nobody's bitmap has the bit afterwards; the internal assertion cannot fire |
| ClusterNode.ClusterState.DelNodeSlots | Linux/lesson07/redis-5.0.10/src/cluster.c:3764-3774 | exactly the node's slots become free, every other slot keeps its owner; returns how many they were, and the node's counter is zero |
| ClusterNode.ClusterState.DelNode | Linux/lesson07/redis-5.0.10/src/cluster.c:920-947 | the node is gone; its slots are free and its imports and migrations closed, all others stay; its slaves have no master, every other node is as before |
| SlotModel.RemovedNode | Linux/lesson07/redis-5.0.10/src/cluster.c:920-947 | what is left of the table, the marks and the other nodes once a node is removed |
| ClusterNode.ClusterState.FreeNode | Linux/lesson07/redis-5.0.10/src/cluster.c:876-898 | unlinks the node and clears the master of its replicas |
| ClusterNode.ClusterState.UpdateSlots | Linux/lesson07/redis-5.0.10/src/cluster.c:1553-1647 | the sender gets exactly the claimed slots that are not being imported and are free or known at an older epoch, all others keep their owner; this node follows the sender exactly when its master lost its last slot to the sender, and otherwise purges exactly the lost slots it holds keys in; the null master is read exactly when it is unknown and a free slot is claimed |
| SlotModel.UpdateMeans | Linux/lesson07/redis-5.0.10/src/cluster.c:1553-1647 | who owns each slot after a claim, when the node follows the claimant and what it then forgets, told from the states before and after |
| SlotModel.DirtyMeans | Linux/lesson07/redis-5.0.10/src/cluster.c:1594-1602 | the slots to be purged are exactly those that were this node's, are the sender's now and hold keys |
| ClusterNode.ClusterState.RebindClaimed | Linux/lesson07/redis-5.0.10/src/cluster.c:1579-1613 | the loop takes the slots the epochs of the table before it decide, though it changes the table while it runs |
| ClusterNode.ClusterState.BecomeReplicaOf | Linux/lesson07/redis-5.0.10/src/cluster.c:3970-3986 | this node is a slave of the given one, and has no imports or migrations left |
| ClusterNode.ClusterState.FailoverReplaceYourMaster | Linux/lesson07/redis-5.0.10/src/cluster.c:2939-2967 | a slot is this node's afterwards exactly if it was its own or its old master's, every other slot keeps its owner; the old master has none and counter zero; this node is a master without a master of its own; every other node is as before |
| SlotModel.ReplacedMaster | Linux/lesson07/redis-5.0.10/src/cluster.c:2939-2967 | slot by slot and node by node what taking over from a master m means, told from the states before and after |
| SlotModel.ReplacedItself | Linux/lesson07/redis-5.0.10/src/cluster.c:2939-2967 | a slave recorded as its own master changes its role and nothing else |
| ClusterNode.ClusterState.SetSlotNode | Linux/lesson07/redis-5.0.10/src/cluster.c:4408-4455 | refused exactly for an unknown node or while this node still holds keys it would give away; otherwise this slot and no other moves to the node, a migration out of it ends when no keys are left, and an import that ends here raises the epoch; the table is coherent |
| ClusterNode.SlotMoves | Linux/lesson07/redis-5.0.10/src/cluster.c:4408-4455 | the one slot that moves, the marks that close and the epoch that is raised, told from the states before and after |
| ClusterNode.ClusterState.GetMaxEpoch | Linux/lesson07/redis-5.0.10/src/cluster.c:983-997 | the greatest epoch this node knows of |
| ClusterNode.ClusterState.BumpConfigEpochWithoutConsensus | Linux/lesson07/redis-5.0.10/src/cluster.c:1027-1044 | takes a new epoch exactly when this node has none or not the greatest, and then, with its current epoch dominating, one above every other epoch known |
| ClusterNode.ClusterState.HandleConfigEpochCollision | Linux/lesson07/redis-5.0.10/src/cluster.c:1092-1107 | of two masters with one epoch only the one with the lesser name moves, to the epoch after the current one; otherwise nothing changes |
| ClusterModel.CollisionResolves | Linux/lesson07/redis-5.0.10/src/cluster.c:1092-1107 | the epoch moved to lies above every epoch known, so no known master shares it; in every other case the state is as before |
| ClusterNode.ClusterState.Adopt | Linux/lesson07/redis-5.0.10/src/cluster.c:1733-1744 | raises current epoch and the sender's epoch to those of the header, never lowers them |
| ClusterNode.ClusterState.SendFailoverAuthIfNeeded | Linux/lesson07/redis-5.0.10/src/cluster.c:2737-2838 | a vote is given exactly when this node has one, the request is current, no vote for that master is recent, and this node objects to nothing: it knows no newer owner of a claimed slot, and does not think the master is up without a forced ACK; then the epoch is spent |
| ClusterModel.VotesIff | Linux/lesson07/redis-5.0.10/src/cluster.c:2737-2838 | a vote is granted if and only if the voter has one, the request is eligible, no vote for that master is recent and the voter has no objection |
| ClusterNode.ClusterState.ProcessAuthAck | Linux/lesson07/redis-5.0.10/src/cluster.c:2076-2088 | the counter goes up by one exactly for an ACK of a slot-serving master that is not older than the election; nothing else changes |
| ClusterNode.ClusterState.HandleSlaveFailover | Linux/lesson07/redis-5.0.10/src/cluster.c:2977-3146 | the one step a slave takes towards failing over, each exactly under its conditions: re-arm, ask for votes in a fresh epoch, or, with a majority, take all slots of its master and a configuration epoch not below the election's |
| EpochCollisions.FewMoves | Linux/lesson07/redis-5.0.10/src/cluster.c:1092-1107 | among n masters, with any number of slaves sending and receiving, any run of headers makes fewer than 2^n - n moves to a new epoch |
| EpochCollisions.GreatestNeverMoves | Linux/lesson07/redis-5.0.10/src/cluster.c:1092-1107 | the master with the greatest name keeps its epoch through every run |
| EpochCollisions.QuietIffDistinct | Linux/lesson07/redis-5.0.10/src/cluster.c:1092-1107 | no header of any node could move a master if and only if all masters' epochs are distinct |
| Resp.AtoiDecimal | Linux/lesson07/redis-5.0.10/src/aof.c:518-541 | a printed length is read back by atoi and strtol whatever follows it |
| Resp.CommandWhole | Linux/lesson07/redis-5.0.10/src/aof.c:752-812 | reading what was printed for a command gives the command back and stops at its last byte |
| Resp.CommandCut | Linux/lesson07/redis-5.0.10/src/aof.c:752-812 | a command cut at any byte is recognised as cut: never as malformed and never as another command |
| AofLoad.ReadCommand | Linux/lesson07/redis-5.0.10/src/aof.c:752-812 | the line-by-line reader returns the command, that the file ended, or that it is malformed, as the grammar says; a first byte other than an asterisk is malformed |
| Resp.EncodedForm | Linux/lesson07/redis-5.0.10/src/aof.c:518-545 | the bytes of one command, written out |
| AofRefusals.StrayBytesRefused | Linux/lesson07/redis-5.0.10/src/aof.c:772-772 | whole commands followed by anything that does not start with an asterisk are refused under every option |
| AofRefusals.BadLineRefused | Linux/lesson07/redis-5.0.10/src/aof.c:766-775 | whatever else stands in the first line of a command, a count that reads as less than one is refused under every option |
| AofRefusals.BadCountRefused | Linux/lesson07/redis-5.0.10/src/aof.c:774-775 | a count printed as zero or as a negative number is refused under every option, wherever it follows whole commands |
| AofRefusals.BadArgumentRefused | Linux/lesson07/redis-5.0.10/src/aof.c:783-794 | an argument that does not start with a dollar sign is refused under every option, after any number of good ones |
| AofRefusals.NegativeLengthRefused | Linux/lesson07/redis-5.0.10/src/aof.c:795-798 | a negative argument length, for which no memory can be had, stops the load under every option, after any number of good arguments |
| AofRefusals.UnknownCommandRefused | Linux/lesson07/redis-5.0.10/src/aof.c:814-821 | a whole command that is not in the table is refused under every option |
| Resp.ZeroByteCount | Linux/lesson07/redis-5.0.10/src/aof.c:772-773 | an asterisk and a zero byte count as a file that ended only if nothing but that line is left, and as an error otherwise |
| Resp.BlanksSkipped | Linux/lesson07/redis-5.0.10/src/aof.c:774-795 | blanks of all six kinds before a number do not change it |
| AofRefusals.OpenLogIsRefused | Linux/lesson07/redis-5.0.10/src/aof.c:849-904 | a log that ends inside MULTI is refused unless truncating is allowed and succeeds |
| AofRefusals.TransactionRuns | Linux/lesson07/redis-5.0.10/src/aof.c:823-834 | between MULTI and EXEC plain commands are queued, and EXEC runs them in order |
| AofRefusals.TransactionLoads | Linux/lesson07/redis-5.0.10/src/aof.c:823-838 | after any log that leaves no transaction open, MULTI, plain commands and EXEC load to exactly those commands, in order |
| AofLoad.LoadAppendOnlyFile | Linux/lesson07/redis-5.0.10/src/aof.c:698-910 | the loop with its running offsets executes, truncates or gives up as the one-command-at-a-time definition says, for every file; a file that starts with REDIS is left to the RDB loader |
| AofRecovery.WholeIsLongest | Linux/lesson07/redis-5.0.10/src/aof.c:877-900 | the commands that count as recovered are the longest prefix whose encoding fits in the bytes kept |
| AofRecovery.RecoversLongestPrefix | Linux/lesson07/redis-5.0.10/src/aof.c:698-910 | a log cut at any byte, with transactions: exactly the whole commands are executed up to the last open MULTI, and the file is cut where the code cuts it |
| AofRecovery.RecoversPlainPrefix | Linux/lesson07/redis-5.0.10/src/aof.c:698-910 | without transactions a log cut at any byte executes and keeps exactly the longest prefix of whole commands |
| AofRecovery.WholeLogLoads | Linux/lesson07/redis-5.0.10/src/aof.c:698-910 | a whole log that ends outside any transaction is executed entirely, transactions flattened, whether or not truncating is allowed |
| AofRecovery.RunIsPlain | Linux/lesson07/redis-5.0.10/src/aof.c:814-838 | transactions that are not nested execute or leave queued exactly what they enclose, in order |
| AofRecovery.CutLogIsRefused | Linux/lesson07/redis-5.0.10/src/aof.c:870-904 | without leave to truncate, or when truncating fails, a log cut inside a command is refused, wherever the cut falls |
| AofRecovery.OpenAfterRecovery | Linux/lesson07/redis-5.0.10/src/aof.c:823-858 | the file kept ends inside a transaction if and only if the cut fell inside a command of an open MULTI |
| AofRecovery.AppendsSurviveIffClosed | Linux/lesson07/redis-5.0.10/src/aof.c:823-858 | commands appended after a recovery are executed by the next load if and only if the file kept is not inside a transaction |
| AofRecovery.RecoveryIsSafeIff | Linux/lesson07/redis-5.0.10/src/aof.c:877-900 | recover, append, load again: everything is executed if and only if the first cut did not fall inside a command of an open MULTI |
| AofRecovery.AppendAfterOpenMultiIsLost | Linux/lesson07/redis-5.0.10/src/aof.c:877-900 | MULTI and a write cut one byte into the write, recovered, one write appended: the next load discards the MULTI and the appended write |
| AofWriter.Writer.AofWrite | Linux/lesson07/redis-5.0.10/src/aof.c:297-316 | interrupted and partial writes add up to the bytes on disk; -1 exactly if a call failed for good before any byte was taken |
| AofWriter.Writer.FlushAppendOnlyFile | Linux/lesson07/redis-5.0.10/src/aof.c:337-516 | a due flush whose write takes the whole buffer appends it to the file, empties it and clears the error; a failed one leaves the buffer and cuts the file back, or keeps what was written and drops it from the buffer; a postponed one changes nothing else; under ALWAYS the synced offset reaches the size |
| AofWriter.WritesAll | Linux/lesson07/redis-5.0.10/src/aof.c:297-316 | the loop of write calls writes everything if no call fails for good or the calls before the failing one reach the length, and otherwise exactly what those calls took |
| AofWriter.WriteMeans | Linux/lesson07/redis-5.0.10/src/aof.c:386-466 | what a write leaves in file, buffer and size, by how far it got |
| AofWriter.HealthyFlushCatchesUp | Linux/lesson07/redis-5.0.10/src/aof.c:337-516 | a forced flush in which no write call fails leaves exactly the log plus all bytes fed in the file, after any history |
| AofWriter.NothingLostOrRepeated | Linux/lesson07/redis-5.0.10/src/aof.c:337-516 | after any sequence of feeds and flushes with any disk behaviour, file and buffer together are exactly the bytes fed, and the recorded size is the file's |
| AofWriter.CrashRecovery | Linux/lesson07/redis-5.0.10/src/aof.c:337-516 | whatever first part of the file a crash keeps, loading it executes exactly the whole commands in it, in order, except those of a transaction left open, and keeps what the recovery keeps |
| AofRewrite.RewriteBuffer.Append | Linux/lesson07/redis-5.0.10/src/aof.c:125-169 | the blocks hold what they held followed by the new bytes, none over its size |
| AofRewrite.RewriteBuffer.SendDiff | Linux/lesson07/redis-5.0.10/src/aof.c:95-122 | what was sent and what the blocks still hold make up what they held, in order; nothing is sent once sending was stopped; otherwise all of it is sent unless a write fails, and then no more than the writes before it took |
| AofRewrite.RewriteBuffer.Write | Linux/lesson07/redis-5.0.10/src/aof.c:174-194 | succeeds exactly when no write comes up short, and then everything held was written; otherwise exactly the blocks before the failing one and its first bytes: always a first part of what is held |
| AofRewrite.ReadDiffFromParent | Linux/lesson07/redis-5.0.10/src/aof.c:1287-1297 | what was read and what is left make up the pipe's contents, and nothing is left unless a read fails |
| AofRewrite.LastReadDrains | Linux/lesson07/redis-5.0.10/src/aof.c:1433-1448 | a child whose reads do not fail finishes with the pipe empty |
| AofRewrite.ConservedStep | Linux/lesson07/redis-5.0.10/src/aof.c:1486-1507 | in every event, fork to reap, the bytes fed since the fork stay equal to the child's diff, the pipe and the blocks in sequence |
| AofRewrite.ReapIsExactIff | Linux/lesson07/redis-5.0.10/src/aof.c:1670-1780 | the renamed file is snapshot and everything fed since if and only if the child's last read emptied the pipe |
| AofRewrite.CoveredStep | Linux/lesson07/redis-5.0.10/src/aof.c:1670-1780 | a step keeps file and buffer equal to the base and everything fed since if and only if it does not install a rewrite with bytes left in the pipe |
| AofRewrite.RewriteLosesNothingIff | Linux/lesson07/redis-5.0.10/src/aof.c:1569-1627 | in every run, file and buffer hold every fed byte once and in order throughout if and only if no rewrite is installed with bytes left in the pipe |
| AofRewrite.RewriteLosesNothing | Linux/lesson07/redis-5.0.10/src/aof.c:1569-1627 | in every interleaving of feeding, flushing, sending, reading, handshake, failure and repeated rewrites in which no last read fails, no fed byte is lost or repeated, also when the file is replaced and the buffer cleared |
| AofRewrite.InStepThroughout | Linux/lesson07/redis-5.0.10/src/aof.c:1436-1509 | in every state of every run: the parent sends until the child has asked it to stop, a question is on its way or answered, and a child that finished had its answer |
| AofRewrite.RewriteCanFinish | Linux/lesson07/redis-5.0.10/src/aof.c:1670-1819 | from every state of every run, also after a failed child or a lost answer, there is a continuation that installs a rewrite and flushes the next write; the file is then the snapshot, everything fed since the fork, and that write |
| DatasetRewrite.ChunksReplay | Linux/lesson07/redis-5.0.10/src/aof.c:932-962 | replaying the chunks of at most 64 elements adds exactly the elements of the whole aggregate |
| DatasetRewrite.ChunkAt | Linux/lesson07/redis-5.0.10/src/aof.c:932-962 | the i-th command carries exactly the elements from 64 i on, up to 64 of them |
| DatasetRewrite.ChunkCount | Linux/lesson07/redis-5.0.10/src/aof.c:932-962 | as many commands as 64 elements each call for, and no more |
| DatasetRewrite.RecordReplay | Linux/lesson07/redis-5.0.10/src/aof.c:1321-1356 | a key's commands rebuild its value, of any of the five types, and its absolute expiry |
| DatasetRewrite.DatasetReplay | Linux/lesson07/redis-5.0.10/src/aof.c:1299-1372 | replaying the rewrite from empty databases rebuilds every database, whatever order the dictionaries were iterated in |
| DatasetFile.RewriteAggregate | Linux/lesson07/redis-5.0.10/src/aof.c:932-1132 | the counting loop's bytes are the encodings of the chunk commands: every announced array length is the number of arguments that follow |
| DatasetFile.RewriteRecord | Linux/lesson07/redis-5.0.10/src/aof.c:1321-1356 | the bytes written for a key are the encodings of its commands |
| DatasetFile.RewriteAppendOnlyFileRio | Linux/lesson07/redis-5.0.10/src/aof.c:1299-1372 | the bytes written for all databases are the encodings of SELECT and the keys' commands, empty databases left out |
| DatasetFile.FeedIsFaithfulIff | Linux/lesson07/redis-5.0.10/src/aof.c:580-593 | fed writes all run in their own database if and only if the feeder's idea of the selected database is right or not relied on by the first write; forgetting it at the fork always is |
| DatasetFile.RewrittenLogRebuilds | Linux/lesson07/redis-5.0.10/src/aof.c:1618-1622 | loading snapshot and diff executes all of it, transactions flattened, rebuilds every database with its expiries, and runs each later write in its own database |
| RewriteCycle.InstalledFileLoads | Linux/lesson07/redis-5.0.10/src/aof.c:1670-1780 | in every run, the file a rewrite installs loads to the dataset listed at the fork followed by every write fed since, each in its own database |
| AdList.List.AddNodeTail | Linux/lesson07/redis-5.0.10/src/adlist.c:114-131 | the new node is last, the others keep their nodes and order, all links agree |
| AdList.List.AddNodeHead | Linux/lesson07/redis-5.0.10/src/adlist.c:86-104 | the new node is first, the others keep their nodes and order, all links agree |
| AdList.List.DelNode | Linux/lesson07/redis-5.0.10/src/adlist.c:167-180 | exactly the node given leaves; the others keep their nodes and order, all links agree |
| AdList.List.RotateHeadToTail | Linux/lesson07/redis-5.0.10/src/adlist.c:345-357 | the first node becomes the last; the others keep their nodes and order, all links agree |
| AdList.List.Join | Linux/lesson07/redis-5.0.10/src/adlist.c:361-376 | the other list's nodes follow this one's, and the other list is empty and usable |
| BlockedIndex.OnceIffWaiting | Linux/lesson07/redis-5.0.10/src/blocked.c:522-562 | a client stands in a key's list exactly once when it waits for the key and not at all otherwise |
| BlockedIndex.BlockKeepsIndex | Linux/lesson07/redis-5.0.10/src/blocked.c:522-562 | blocking keeps both directions, counters, flags and ready keys in agreement; a key named twice is waited for once |
| BlockedIndex.UnblockKeepsIndex | Linux/lesson07/redis-5.0.10/src/blocked.c:177-196 | unblocking keeps all of it, with one blocked client fewer, which waits nowhere and is queued for reprocessing |
| BlockedIndex.SignalKeepsIndex | Linux/lesson07/redis-5.0.10/src/blocked.c:610-631 | no key is listed ready twice, list and dictionary agree, and a key with waiters is listed afterwards |
| BlockedIndex.RotateKeepsIndex | Linux/lesson07/redis-5.0.10/src/adlist.c:345-357 | moving a waiter behind the others keeps every client's remembered node |
| BlockedIndex.DequeueKeepsIndex | Linux/lesson07/redis-5.0.10/src/blocked.c:127-147 | taking a client off the reprocessing list keeps flag and membership in agreement |
| BlockedIndex.AlwaysIndexed | Linux/lesson07/redis-5.0.10/src/blocked.c:117-196 | after any sequence of blocking, unblocking, requeueing, processing, signalling and rotating, the whole index agrees |
| BlockedServe.DeliverStep | Linux/lesson07/redis-5.0.10/src/blocked.c:297-332 | serving the first waiter takes it and nobody else off the key's list, so the head is never read from an emptied list |
| BlockedServe.FailedServeRestores | Linux/lesson07/redis-5.0.10/src/t_list.c:631-683 | a BRPOPLPUSH whose target is not a list leaves every list as it was, order included |
| BlockedServe.ServesInOrder | Linux/lesson07/redis-5.0.10/src/blocked.c:287-337 | the clients served are the list-type waiters among the first ones, in the order they blocked; others move behind; the pass stops early only on an empty list |
| BlockedRun.HandedConserves | Linux/lesson07/redis-5.0.10/src/t_list.c:631-683 | handing an element over puts it in exactly one place: the client, the target list, or its own list again |
| BlockedRun.DeliverConserves | Linux/lesson07/redis-5.0.10/src/blocked.c:306-332 | a pop and its delivery leave list contents and elements handed out, together, the same multiset |
| BlockedRun.LoopConserves | Linux/lesson07/redis-5.0.10/src/blocked.c:287-337 | a pass over a key's waiters loses and duplicates no element |
| BlockedRun.ServeKeySettles | Linux/lesson07/redis-5.0.10/src/blocked.c:275-346 | working off a ready key of a server without empty lists leaves no list-type waiter beside a full list unmarked, on this key or on the ones pushed to |
| BlockedRun.ServeKeyAdvances | Linux/lesson07/redis-5.0.10/src/blocked.c:275-346 | whatever is stored, working off a ready key keeps the index, loses no element, and makes keys ready only in exchange for a client served |
| BlockedRun.DeliverKeepsAlertIff | Linux/lesson07/redis-5.0.10/src/blocked.c:306-332 | serving a client leaves a waiter unmarked beside a full list if and only if it pushes to a list that exists, is empty, unmarked and waited for |
| BlockedRun.EmptyTargetForgets | Linux/lesson07/redis-5.0.10/src/t_list.c:550-563 | pushing to a list that exists but is empty marks nothing ready: a waiter on it is left beside a full list |
| BlockedCommands.AddKeepsAlert | Linux/lesson07/redis-5.0.10/src/db.c:173-182 | creating a key never leaves a list-type waiter unmarked beside a full list |
| BlockedCommands.OverwriteKeepsAlertIff | Linux/lesson07/redis-5.0.10/src/db.c:189-206 | overwriting a value leaves one unmarked if and only if it puts elements under an unmarked list-type waiter |
| BlockedCommands.SetKeepsAlertIff | Linux/lesson07/redis-5.0.10/src/db.c:216-225 | likewise for storing under a key that may or may not exist |
| BlockedCommands.PushStores | Linux/lesson07/redis-5.0.10/src/t_list.c:197-224 | LPUSH leaves the new elements reversed before the old ones, RPUSH in order behind them; a value of another type stays; no other key changes |
| BlockedCommands.CommandMeans | Linux/lesson07/redis-5.0.10/src/db.c:189-281 | what storing, removing, waiting and giving up leave in the keyspace and the index: a client that waits is last for each key, with the end it will pop from, and no other client changes |
| BlockedCommands.AlwaysPossible | Linux/lesson07/redis-5.0.10/src/blocked.c:177-200 | storing and removing are never refused, and a blocked client can always give up |
| BlockedCommands.PushKeepsAlertIff | Linux/lesson07/redis-5.0.10/src/t_list.c:197-224 | a push leaves a waiter unmarked if and only if the list was there already, empty, unmarked and waited for |
| BlockedCommands.BlockingPopKeepsAlert | Linux/lesson07/redis-5.0.10/src/t_list.c:685-740 | BLPOP and BRPOP block only where there is nothing to pop, so they keep the index and leave nobody unmarked |
| BlockedCommands.FirstDecides | Linux/lesson07/redis-5.0.10/src/t_list.c:685-740 | the first key holding a value that is not an empty list decides: pop from a list, an error for another type; with none the client blocks |
| BlockedCommands.BlockingPopTakes | Linux/lesson07/redis-5.0.10/src/t_list.c:685-740 | a pop takes the first or last element, by the end asked for, removes the key with its last element, and changes nothing else |
| BlockedCommands.CommandKeepsAlertIff | Linux/lesson07/redis-5.0.10/src/blocked.c:610-631 | for every command modelled: it leaves nobody unmarked beside a full list if and only if it does not bring elements to an unmarked list-type waiter under an existing key |
| BlockedCommands.AlertThroughout | Linux/lesson07/redis-5.0.10/src/blocked.c:610-631 | a history of commands none of which does that leaves nobody unmarked for the next round of serving |
| BlockedCommands.OverwrittenWaiter | Linux/lesson07/redis-5.0.10/src/sort.c:565-567 | a history of three commands, no empty list in it, that leaves a client waiting beside a full list with nothing to wake it |
| BlockedCommands.EmptyTargetWaiter | Linux/lesson07/redis-5.0.10/src/t_list.c:550-563 | a state with the index in order in which serving a BRPOPLPUSH into a stored empty list overlooks its waiter |
| BlockedServer.Server.BlockForKeys | Linux/lesson07/redis-5.0.10/src/blocked.c:522-562 | the client ends waiting for exactly the keys given, last in the list of each; no other client changes |
| BlockedIndex.BlockedLast | Linux/lesson07/redis-5.0.10/src/blocked.c:522-562 | a newly blocked client stands behind all earlier waiters of each of its keys and in no other list |
| BlockedServer.Server.UnblockClientWaitingData | Linux/lesson07/redis-5.0.10/src/blocked.c:567-601 | in whatever order the client's keys are visited, exactly its nodes leave, and lists left empty go |
| BlockedServer.Server.UnblockClient | Linux/lesson07/redis-5.0.10/src/blocked.c:177-196 | the client waits nowhere, is queued for reprocessing, and the index is in order |
| BlockedServer.Server.QueueClientForReprocessing | Linux/lesson07/redis-5.0.10/src/blocked.c:166-173 | the client is at the end of the list unless it was listed, and flagged; nobody is listed twice |
| BlockedServer.Server.ProcessUnblockedClients | Linux/lesson07/redis-5.0.10/src/blocked.c:127-147 | every queued client is taken off with its flag cleared, and exactly those not blocked again come up, in order |
| BlockedServer.RunnableConcat | Linux/lesson07/redis-5.0.10/src/blocked.c:127-147 | who comes up from two queues in a row is who comes up from each |
| BlockedServer.Server.SignalKeyAsReady | Linux/lesson07/redis-5.0.10/src/blocked.c:610-631 | the key goes to the end of the queue exactly when somebody waits for it and it is not queued already |
| BlockedServer.Server.HandOver | Linux/lesson07/redis-5.0.10/src/t_list.c:631-683 | the receiver's target list is the element followed by what it held, or the element alone if it was missing, and every other key is as before; with a target of another type, or no target, no key changes |
| BlockedServe.HandedStores | Linux/lesson07/redis-5.0.10/src/t_list.c:550-563 | what handing an element to a receiver leaves under every key, told from the keyspace before and after |
| BlockedServe.DeliverMeans | Linux/lesson07/redis-5.0.10/src/blocked.c:306-332 | the element delivered is the first or the last, by the end popped from, and the served list is the rest |
| BlockedServer.Server.ServeReceiver | Linux/lesson07/redis-5.0.10/src/blocked.c:306-332 | the first waiter gets the first or the last element, by the end it pops from, into its target or its reply, and is unblocked; a failed BRPOPLPUSH leaves all lists as they were |
| BlockedServer.Server.ServeClients | Linux/lesson07/redis-5.0.10/src/blocked.c:281-337 | the counted loop over a list that shrinks and rotates under it does what the step-by-step definition says; when all served clients pop from one end, the n-th one gets the n-th element from that end |
| BlockedServe.NthServedGetsNth | Linux/lesson07/redis-5.0.10/src/blocked.c:287-337 | over a whole pass with all waiters popping from one end, the n-th client served gets the n-th element from that end and the rest stays in order |
| BlockedServer.Server.HandleClientsBlockedOnKeys | Linux/lesson07/redis-5.0.10/src/blocked.c:261-349 | ends, though it makes keys ready itself; leaves no ready key and loses no element, whatever is stored; if no list is empty and nobody was unmarked before, no list-type waiter is left on a key holding elements |
| SlotToKeys.SameTagSameSlot | Linux/lesson07/redis-5.0.10/src/cluster.c:676-695 | keys with the same non-empty text between the first braces share a slot, whatever surrounds it |
| SlotToKeys.TaggedSlot | Linux/lesson07/redis-5.0.10/src/cluster.c:676-695 | a key with text between its first opening brace and the next closing one hashes by that text alone |
| SlotToKeys.UntaggedSlot | Linux/lesson07/redis-5.0.10/src/cluster.c:676-695 | without an opening brace, without a closing one after it, or with nothing between them, the whole key is hashed |
| SlotToKeys.SeekNext | Linux/lesson07/redis-5.0.10/src/db.c:1554-1556 | the least indexed name not below a prefix, or none exactly when there is none |
| SlotToKeys.Db.DbAdd | Linux/lesson07/redis-5.0.10/src/db.c:173-182 | adds a new key and keeps counters, index and expires exact |
| SlotToKeys.Db.DbOverwrite | Linux/lesson07/redis-5.0.10/src/db.c:189-206 | changes a value and nothing about the index or the expires |
| SlotToKeys.Db.SetKey | Linux/lesson07/redis-5.0.10/src/db.c:216-225 | the key has the value and no expire, whatever was there, and the index is exact |
| SlotToKeys.Db.DbDelete | Linux/lesson07/redis-5.0.10/src/db.c:271-281 | key and expire go together; counters and index stay exact; tells whether the key existed |
| SlotToKeys.Db.SetExpire | Linux/lesson07/redis-5.0.10/src/db.c:1076-1088 | only existing keys get an expire |
| SlotToKeys.Db.RemoveExpire | Linux/lesson07/redis-5.0.10/src/db.c:1065-1070 | removes the expire, tells whether there was one |
| SlotToKeys.Db.Rename | Linux/lesson07/redis-5.0.10/src/db.c:869-901 | value and expire move to the new name, a value there before is gone with its expire, and the index is exact |
| SlotToKeys.Db.DelKeysInSlot | Linux/lesson07/redis-5.0.10/src/db.c:1545-1564 | ends, having removed exactly the slot's keys and their expires, and returns how many they were |
| SlotToKeys.Db.GetKeysInSlot | Linux/lesson07/redis-5.0.10/src/db.c:1526-1541 | different keys of the slot, as many as asked for or all there are |
| Popcount.TableIsOnes | Linux/lesson07/redis-5.0.10/src/bitops.c:40-45 | the 256 table entries are the numbers of one bits |
| Popcount.FoldedNumber | Linux/lesson07/redis-5.0.10/src/bitops.c:66-79 | after the three folding steps a word holds, side by side, the numbers of one bits of its four bytes |
| Popcount.Gathers | Linux/lesson07/redis-5.0.10/src/bitops.c:80-86 | the multiplication adds four byte sums of at most 56 without a carry |
| Popcount.BlockOnes | Linux/lesson07/redis-5.0.10/src/bitops.c:54-87 | one turn of the middle loop counts exactly the one bits of 28 bytes |
| Popcount.RedisPopcount | Linux/lesson07/redis-5.0.10/src/bitops.c:40-92 | the number of one bits, for every string, length and start alignment |
| Bitpos.SkipWord | Linux/lesson07/redis-5.0.10/src/bitops.c:132-142 | a word equal to the skip value holds no bit of the kind wanted |
| Bitpos.TestIsBit | Linux/lesson07/redis-5.0.10/src/bitops.c:168-180 | testing the loaded word with the moving one reads the string's bits from left to right, zeros past its end |
| Bitpos.ScanFinds | Linux/lesson07/redis-5.0.10/src/bitops.c:168-186 | the scan always finds the bit: the panic after it is unreachable |
| Bitpos.Skip | Linux/lesson07/redis-5.0.10/src/bitops.c:118-142 | everything before the stopping point is skipped rightly, and the word there decides the search |
| Bitpos.LoadWord | Linux/lesson07/redis-5.0.10/src/bitops.c:144-160 | the word holds the next eight bytes, zero-padded, first byte on top |
| Bitpos.RedisBitpos | Linux/lesson07/redis-5.0.10/src/bitops.c:101-186 | the least position of the wanted bit in the zero-padded string, or -1 exactly when a one is sought and there is none, for every alignment |
| Bitfield.FieldHolds | Linux/lesson07/redis-5.0.10/src/bitops.c:228-241 | a field whose bits are those of a number reads as the number modulo 2 to the width |
| Bitfield.SetUnsignedBitfield | Linux/lesson07/redis-5.0.10/src/bitops.c:209-221 | the field reads as the value modulo 2 to the width and every other bit of the string is unchanged |
| Bitfield.GetUnsignedBitfield | Linux/lesson07/redis-5.0.10/src/bitops.c:228-241 | the number the field's bits make, first bit most significant |
| Bitfield.SetSignedBitfield | Linux/lesson07/redis-5.0.10/src/bitops.c:223-226 | likewise for negative values, by two's complement |
| Bitfield.GetSignedBitfield | Linux/lesson07/redis-5.0.10/src/bitops.c:243-263 | the field in two's complement at its width, always in range |
| Bitfield.UnsignedCheckIsRight | Linux/lesson07/redis-5.0.10/src/bitops.c:288-326 | for a value in range, overflow is reported if and only if the sum does not fit, as -1 if and only if it is below zero and not wrapped, with the wrapped, saturated or no limit |
| Bitfield.SignedCheckIsRight | Linux/lesson07/redis-5.0.10/src/bitops.c:328-375 | for a value in range, overflow is reported if and only if the sum does not fit, as -1 if and only if it is below the range and not wrapped, with the wrapped, saturated or no limit |
| Bitfield.WrapSignedIs | Linux/lesson07/redis-5.0.10/src/bitops.c:356-373 | setting or clearing the upper bits by the sign bit is two's complement at the field's width |
| Bitfield.SetSaturatesIff | Linux/lesson07/redis-5.0.10/src/bitops.c:328-350 | a signed SET saturates at the right end if and only if max minus the value stays within 64 bits |
| Bitfield.LeastValueSaturatesHigh | Linux/lesson07/redis-5.0.10/src/bitops.c:328-350 | the least 64-bit value set into eight signed bits under SAT is stored as 127, not -128 |
| Bitfield.UnsignedSetSaturatesIff | Linux/lesson07/redis-5.0.10/src/bitops.c:288-326 | an unsigned SET saturates at the right end if and only if its argument is not negative |
| Bitfield.NegativeSaturatesHigh | Linux/lesson07/redis-5.0.10/src/bitops.c:288-326 | -1 set into eight unsigned bits under SAT is stored as 255, not 0 |
| Bitfield.IncrBySigned | Linux/lesson07/redis-5.0.10/src/bitops.c:1028-1066 | the field and the reply are old plus increment wrapped, clamped or refused; refused leaves memory untouched; other bits unchanged |
| Bitfield.IncrByUnsigned | Linux/lesson07/redis-5.0.10/src/bitops.c:1067-1091 | the field and the reply are old plus increment wrapped, clamped or refused; refused leaves memory untouched; other bits unchanged |
| Bitfield.SetSigned | Linux/lesson07/redis-5.0.10/src/bitops.c:1028-1066 | the reply is the old field; under every policy the field becomes the value, wrapped, clamped or left alone with no reply, except that SAT takes a value too low for 64-bit differences to the maximum; other bits unchanged |
| Bitfield.SetUnsigned | Linux/lesson07/redis-5.0.10/src/bitops.c:1067-1091 | likewise for unsigned fields, except that SAT takes a negative value to the maximum |
| Bitfield.SignedSetStores | Linux/lesson07/redis-5.0.10/src/bitops.c:328-375 | for every argument and policy, what a signed SET stores: the value or what the policy makes of it, and the maximum for SAT of a value too low |
| Bitfield.GetPadded | Linux/lesson07/redis-5.0.10/src/bitops.c:1093-1122 | the nine-byte copy reads a field that reaches past the string as if zeros followed |
| Bitfield.GetPaddedSigned | Linux/lesson07/redis-5.0.10/src/bitops.c:1093-1122 | likewise for signed fields, in two's complement at the field's width |
| Bitop.CombinedByte | Linux/lesson07/redis-5.0.10/src/bitops.c:666-724 | combining two words combines their bytes |
| Bitop.Gather | Linux/lesson07/redis-5.0.10/src/bitops.c:627-655 | wrong types are refused; the lengths are those of the shortest and the longest source, missing keys counting as empty |
| Bitop.FourWords | Linux/lesson07/redis-5.0.10/src/bitops.c:666-724 | one turn of the fast path combines 32 bytes of every source and leaves the rest as it was |
| Bitop.OneByte | Linux/lesson07/redis-5.0.10/src/bitops.c:728-742 | the byte loop folds the operation over the zero-padded sources |
| Bitop.Compute | Linux/lesson07/redis-5.0.10/src/bitops.c:657-743 | fast path and byte tail together are the bytewise fold over all zero-padded sources |
| Bitop.BitopCommand | Linux/lesson07/redis-5.0.10/src/bitops.c:593-745 | errors exactly as stated, deletion only when all sources are empty; otherwise every bit of the result is decided by the bits at that place in the sources |
| Bitop.CombinedIsBitByBit | Linux/lesson07/redis-5.0.10/src/bitops.c:664-745 | AND, OR, XOR and NOT decide every bit by the sources that have it; a source too short has a zero |
| Bitop.LongestIs | Linux/lesson07/redis-5.0.10/src/bitops.c:636-656 | the result is as long as the longest source |
| Crc64.TableIsOctet | Linux/lesson07/redis-5.0.10/src/crc64.c:42-171 | each of the 256 table entries is its index put through eight single-bit division steps |
| Crc64.OctetXor | Linux/lesson07/redis-5.0.10/src/crc64.c:42-171 | eight single-bit division steps are linear over exclusive or, which is what makes a table possible |
| Crc64.TableIsBits | Linux/lesson07/redis-5.0.10/src/crc64.c:173-181 | the table-driven checksum is polynomial division bit by bit, for every string |
| Crc64.Crc64 | Linux/lesson07/redis-5.0.10/src/crc64.c:173-181 | the loop computes the checksum from any starting value |
| Crc64.BurstDetected | Linux/lesson07/redis-5.0.10/src/crc64.c:173-181 | strings of one length that differ only inside eight consecutive bytes have different checksums |
| DumpPayload.CreateDumpPayload | Linux/lesson07/redis-5.0.10/src/cluster.c:4820-4846 | the value, version 9 in two bytes, low byte first, and eight bytes of checksum; the payload made is accepted |
| DumpPayload.VerifyDumpPayload | Linux/lesson07/redis-5.0.10/src/cluster.c:4853-4870 | accepts exactly what the definition of an acceptable payload says |
| DumpPayload.AcceptsIff | Linux/lesson07/redis-5.0.10/src/cluster.c:4853-4870 | a payload is accepted if and only if its version is known and the checksum of all of it, trailer included, is zero |
| DumpPayload.VersionRejected | Linux/lesson07/redis-5.0.10/src/cluster.c:4853-4870 | a payload closed by its own checksum is turned away exactly when its two version bytes, low byte first, say more than 9 |
| DumpPayload.BurstRejected | Linux/lesson07/redis-5.0.10/src/cluster.c:4853-4870 | an accepted payload damaged only inside eight consecutive bytes, the trailer included, is never accepted |

## Left out

- ElectionSafety.ElectionSafety: the electorate is fixed and no stale ACK is counted; the second condition is necessary (`StaleAckElectsTwo`), the first is what the majority rule assumes.
- SlotMerge.OrderIndependence: claimants keep one epoch and bitmap, and the observer starts without assigned or importing slots and survives the claims (`SurvivesIff` says when); UPDATE messages do not occur among the claims.
- EpochCollisions.FewMoves: who is a master is fixed and known to everybody; only PING and PONG headers are sent, and view changes leave epochs alone.
- AofRewrite.RewriteLosesNothing: no read of the child's last round fails; `RewriteLosesNothingIff` is the statement for all runs.  The AOF is on or waiting for its first rewrite; with the AOF off a rewrite leaves it off and nothing is fed, which is not modelled.
- AofRewrite.RewriteCanFinish: a completing continuation exists from every state; that time-outs and the scheduler let it happen is not modelled.
- DatasetFile.FeedIsFaithfulIff: the translation of EXPIRE, SETEX and SET with options into PEXPIREAT is not modelled.
- DatasetFile.RewrittenLogRebuilds: the writes fed since the fork open no transaction inside another and leave none open, as EXEC is fed with its MULTI.
- DatasetRewrite.DatasetReplay: scores are compared as the text printed for them; printing and reading a double is not modelled.
- BlockedServer.Server.HandleClientsBlockedOnKeys: the list branch only; sorted-set and stream waiters are rotated, never served.
- BlockedCommands.CommandKeepsAlertIff: SET, SORT STORE, DEL, LPUSH, RPUSH, BLPOP, BRPOP and giving up a wait; BRPOPLPUSH with an element at hand, LINSERT, LTRIM, RENAME and sorted-set commands are not modelled.
- BlockedServer.Server.ProcessUnblockedClients: the commands the client then sends are not modelled, only which clients are looked at and in which order.
- Bitfield.IncrBySigned: widths 1 to 63; at 64 the shifts of the source are undefined in C.
- Epochs and counters are unbounded; wrap-around of 64-bit epochs is not modelled.
- Node bitmaps are sets of slot numbers; the packing into 2048 bytes is not modelled.
- Handshake, gossip, failure detection, replica migration, manual failover timing and nodes.conf: only their effect on who is a master is a free choice of the model.
- Clocks, randomness, the network, the disk, fork and pipes are parameters or events.
- RDB files, the RDB preamble of the log, streams, modules and replication.
- The byte contents of serialized values in DUMP payloads: any bytes.
- crc16 and the radix tree: a function of the key's tag, and a set with its least element from a prefix on.
- Allocation failure, reference counts and lazy freeing.
- The rest of the repository: the other projects and lessons bundled with it.
