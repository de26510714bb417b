# Verified models of TransferQueue's locks, samplers, stores and indexes

Dafny models of the parts of TransferQueue whose correctness spans several functions, and proofs of what they promise.
`dafny verify dfyconfig.toml` checks everything.

**The cluster-wide leased lock** (`transfer_queue/lock_manager.py`, second half of `transfer_queue/kv_lock.py`).
`LockTable` is the state of one lock actor and what each atomic step does to it; `LockManager` is the actor as an
object whose methods compute exactly that and keep its invariant. An `acquire` is two steps, before and after its
await. `LockInvariants` and `LockRuns` hold what every event keeps, `LockService` and `LockAnswers` what callers can
rely on and are told, `Tombstones` when the pruning of released tokens is right, `LateCall` a run in which an acquire
outlives its release. `LeaseProtocol` puts one actor per shard together with clients, renewers and calls that may be
delayed without bound, under one clock that only moves forward; `LockEffects` is what such a client can tell of one
event at an actor, `LeaseSafety` the invariant, `LeaseTheorems` mutual exclusion, `LeaseRelease` that leaving gives
everything back, `LeaseOrder` the absence of deadlock across shards. A client reads its clock for `sent` after it
submits a call (`transfer_queue/kv_lock.py:456`), at the latest `skew` after the reply left the actor.

**The process-local lock** (first half of `transfer_queue/kv_lock.py`). `LocalLock` is a step system of take, wake,
timeout, cancellation, closed event loops and release; `LocalLocks` the functions that run under `_state_lock`.

**Samplers.** `Balance`, `BalanceTheorems` and `Balancer`: Karmarkar-Karp partitioning, on values and on mutable sets and
states. `GroupScan`: the greedy scan for groups. `SeqlenSampler`: groups dealt out to ranks; `SeqlenRuns`: what the ranks
of one batch are given over any sequence of calls.

**Storage.** `Storage` is the plain unit, `SsdFiles` one file per value with writes that may fail, `HybridCells`,
`HybridPut`, `HybridCheckpoint` and `HybridStorage` the unit with files, `HybridRuns` both side by side. The codec is any
one whose decoding inverts its encoding.

**The controller.** `FieldMeta` and `PartitionFields`: columnar field metadata. `Indexes` and `IndexRuns`: which partition
an index belongs to. `PartitionStatus`: the status tensors. `Delivery` and `DeliveryRuns`: the hand-out of samples over
whole runs. `Controller`: the object that serves the requests, on the tensors and a sampler.

**Staging.** `Staging`: packing tensors into a buffer.

## Findings

Where the code and its own documentation differ, the model follows the code. Each entry gives an input and, where there
is one, the exact condition.

- **Release of a holder** (`transfer_queue/lock_manager.py:187-189` promises that a released token is withdrawn for good).
  Releasing a token that holds leaves no tombstone. Input: token 1 holds a key, token 2 queues and its first call times
  out; its second call is under way when token 1 releases, which grants token 2, and token 2's caller gives up and
  releases; the call then arrives and token 2 holds the key again, for a caller that has left (`LateCall.LateCallHoldsAgain`,
  a run from the initial state). Exact condition: an acquire that arrives after the release is turned away if and only
  if the token was not holding when it was released (`LockService.ReleaseTurnsLateCallAway`).
- **Tombstone order** (`transfer_queue/lock_manager.py:197` says that insertion order is expiry order). Input: release
  token 1 at 0, token 2 at 1 and token 1 again at 200; token 2 is then turned away at 400 although its tombstone was due
  at 301 and a release has pruned since (`Tombstones.SecondReleaseBreaksOrder`). Exact condition: the order holds
  throughout a run, and pruning is exact, if and only if no release renews a tombstone that has one made earlier than now
  behind it (`Tombstones.RunOrder`, `PruneExactIff`); callers that release a token once, as clients do, are safe
  (`OneReleaseEachPrunesExactly`).
- **The clock reading** (`transfer_queue/kv_lock.py:336` rests on `sent` preceding the reply, line 456 reads it after
  the submission). Exact condition: `check()` excludes in every run if and only if no reading is later than the moment
  its reply leaves the actor (`LeaseTheorems.ExcludesExactlyWithoutSkew`; input in `LateStampBreaksExclusion`).
- **Reset and the rank-aware sampler** (`transfer_queue/controller.py:1580-1599` resets the vectors only, not the
  sampler's results). Input: any state in which the sampler keeps a batch of a consumer; once that consumer is reset, one
  fetch of every row by a new batch index and one by the index of the kept batch hand out its samples twice. Exact
  condition: hand-out exactly once survives a reset, whatever follows, if and only if the sampler keeps no batch of the
  consumers that are reset
  (`DeliveryRuns.ResetExactly`).
- **Whole prompts** (`transfer_queue/sampler/grpo_group_n_sampler.py:101`). The scan does not look at prompt boundaries:
  ready indexes 1 and 2 with two samples to a prompt (`GroupScan.WholePromptsExactly`, `MixesPrompts`).
- **Capacity** (`transfer_queue/storage/simple_storage.py:221` says that it is counted per unique sample). A new index
  that is given twice counts twice (`HybridRuns.CapacityCountsSamplesExactly`, `RepeatedIndexIsRefused`).
- **Aligned totals** (`transfer_queue/utils/mooncake_utils.py:58`). A single tensor may exceed the buffer once rounded up
  when the buffer is not a multiple of 256, and still fits (`Staging.AlignedTotalsFitExactly`, `GroupsFit`).
- **Allocated indexes** (`transfer_queue/controller.py:84` says that all active indexes are tracked; the count is a
  metric). Reused indexes are not put back: after a partition releases an index and another takes it, it is held but not
  tracked. Exact condition: `Indexes.AllocateTracksExactly`.
- **Clearing without a row** (`transfer_queue/controller.py:952` swallows the error). The sample's index is released while
  the partition keeps it (`IndexRuns.ClearMetaExactly`, `ClearedTooEarly`).

## Model

| member | source | states |
|---|---|---|
| LockManager.TransferQueueLockManager.Grant | transfer_queue/lock_manager.py:66-76 | the new table state is the old one with every name held by the token, its lease counted from now, the expiry on the heap, and the timer never later than that expiry |
| LockManager.TransferQueueLockManager.LeaveQueues | transfer_queue/lock_manager.py:78-84 | the token leaves every queue of its names, emptied queues disappear, and its record is returned |
| LockManager.TransferQueueLockManager.HandOff | transfer_queue/lock_manager.py:86-101 | the worklist loop computes the recursive hand-off over (waiters, worklist), so it terminates although skipping an abandoned waiter makes the worklist longer |
| LockManager.TransferQueueLockManager.FreeToken | transfer_queue/lock_manager.py:103-110 | frees every name of the lease and hands the names off; false and no change without a lease |
| LockManager.TransferQueueLockManager.Expire | transfer_queue/lock_manager.py:112-123 | pops every due entry, frees the leases that are current for theirs, and arms the timer at the new heap minimum; keeps the actor's invariant and leaves no lease that has run out |
| LockManager.TransferQueueLockManager.Acquire | transfer_queue/lock_manager.py:125-168 | what an acquire does before its await: a call of another shard count, and no other, is refused and changes nothing; a withdrawn token is answered None; a new token is granted all its names for its length from now if nobody holds or awaits one, else queued; a waiting call is suspended and may wait while a slot is free; keeps the actor's invariant |
| LockManager.TransferQueueLockManager.Resume | transfer_queue/lock_manager.py:159-168 | what the suspended call does after its await: its slot is free, the waiter is seen now, and the answer is exactly what the lease has left, None without one; keeps the actor's invariant |
| LockManager.TransferQueueLockManager.RenewMany | transfer_queue/lock_manager.py:174-184 | extends exactly the live leases, each by its own length, and says which were alive; keeps the actor's invariant |
| LockManager.TransferQueueLockManager.Release | transfer_queue/lock_manager.py:186-203 | frees a holder, or withdraws a waiter and leaves a tombstone after pruning the expired ones; keeps the actor's invariant |
| LockTable.LeaveTables | transfer_queue/lock_manager.py:78-84 | leaving keeps holder and leases, and queues and waiting, describing one relation each, without empty queues |
| LockTable.GrantTables | transfer_queue/lock_manager.py:66-76 | a grant of free names to a token that neither holds nor waits keeps the tables consistent |
| LockTable.HandOffTables | transfer_queue/lock_manager.py:86-101 | any hand-off keeps the tables consistent and in one arrival order |
| LockTable.EnqueueTables | transfer_queue/lock_manager.py:147-152 | queueing a newcomer keeps the tables consistent and every queue in arrival order |
| LockTable.FreeTables | transfer_queue/lock_manager.py:103-110 | freeing a lease keeps the tables consistent |
| LockTable.ExpireDueTables | transfer_queue/lock_manager.py:112-118 | the expiry loop keeps the tables consistent |
| LockTable.HandOffDueCount | transfer_queue/lock_manager.py:86-101 | grants made at one instant push no entry that is already due, which is why the expiry loop terminates |
| LockInvariants.HandOffChanges | transfer_queue/lock_manager.py:86-101 | a hand-off only grants waiters, each in full and from now, or skips abandoned ones, and grants none past an older waiter that shares a name |
| LockInvariants.HeadIsOldest | transfer_queue/lock_manager.py:56-61 | the head of a queue is its oldest waiter |
| LockInvariants.HandOffLosesNobody | transfer_queue/lock_manager.py:86-101 | if every waiter that could be granted has a name on the worklist before the loop, none is left grantable after it |
| LockInvariants.FreeLosesNobody | transfer_queue/lock_manager.py:103-110 | after a lease is freed no waiter is grantable yet still waiting |
| LockInvariants.WithdrawLosesNobody | transfer_queue/lock_manager.py:190-193 | after a waiter is withdrawn no waiter is grantable yet still waiting |
| LockInvariants.ExpireDueLosesNobody | transfer_queue/lock_manager.py:112-118 | after the expiry loop no waiter is grantable yet still waiting |
| LockInvariants.AdmitLosesNobody | transfer_queue/lock_manager.py:144-152 | granting or queueing a newcomer leaves no waiter grantable yet still waiting |
| LockInvariants.GrantExpires | transfer_queue/lock_manager.py:66-76 | every lease keeps a heap entry with its current expiry and the timer stays no later than the heap minimum |
| LockInvariants.HandOffExpires | transfer_queue/lock_manager.py:86-101 | the same over a whole hand-off |
| LockInvariants.ExpireDueExpires | transfer_queue/lock_manager.py:112-118 | the same over the expiry loop, whose heap then has no due entry |
| LockInvariants.NoDueLease | transfer_queue/lock_manager.py:112-118 | with no due entry on the heap no lease has run out: expiry is never missed |
| LockRuns.EnterInv | transfer_queue/lock_manager.py:125-158 | every invariant of the actor survives the first half of an acquire |
| LockRuns.ResumeInv | transfer_queue/lock_manager.py:159-168 | every invariant of the actor survives the second half of an acquire |
| LockRuns.RenewManyInv | transfer_queue/lock_manager.py:174-184 | every invariant survives a renewal of any list of tokens, though it pushes without re-arming the timer |
| LockRuns.ExpireInv | transfer_queue/lock_manager.py:112-123 | every invariant survives the timer |
| LockRuns.ReleaseInv | transfer_queue/lock_manager.py:186-203 | every invariant survives a release, tombstones included |
| LockRuns.PruneKeepsUnexpired | transfer_queue/lock_manager.py:198-202 | a tombstone is never dropped before its time |
| LockRuns.StepInv | transfer_queue/lock_manager.py:125-203 | every event keeps the tables, the expiry heap, the suspended calls, the tombstones and that nobody grantable waits |
| LockRuns.RunInv | transfer_queue/lock_manager.py:40-64 | all of that holds in every state that any sequence of events at any times reaches |
| LockRuns.ReachableInv | transfer_queue/lock_manager.py:40-64 | and so in every state that any calls, wake-ups and timer firings reach from a new actor |
| LockService.OldestHeadsItsQueues | transfer_queue/lock_manager.py:56-61 | the oldest waiter heads every queue it is in |
| LockService.WaitersWaitForALease | transfer_queue/lock_manager.py:56-61 | if anyone waits, the oldest waiter heads every queue it is in and waits for a name of a lease that still holds |
| LockService.StepServes | transfer_queue/lock_manager.py:86-101 | each event leaves waiters in place, grants them, or skips the abandoned, and grants nobody past an older waiter with a common name |
| LockService.NobodyOvertakes | transfer_queue/lock_manager.py:56-61 | over any run the set of waiters ahead of a request that keeps waiting never grows |
| LockService.WaitingCallKeepsItsPlace | transfer_queue/lock_manager.py:129-131 | a waiter with a suspended call leaves only by its grant or its own release |
| LockService.SkippedExactly | transfer_queue/lock_manager.py:95-101 | a waiter that leaves without its own release is skipped if and only if none of its calls is in the actor and the last ended more than ten seconds ago; else it is granted |
| LockAnswers.StepSeen | transfer_queue/lock_manager.py:147-166 | a waiter is seen when it is queued and when one of its calls ends, and at no other event |
| LockAnswers.EnterDecides | transfer_queue/lock_manager.py:125-168 | what an acquire decides and answers, read off the tables |
| LockAnswers.ResumeEnds | transfer_queue/lock_manager.py:159-168 | what the end of a suspended call changes and answers, read off the tables |
| LockAnswers.WrongCountNeverServed | transfer_queue/lock_manager.py:137-141 | over any run a token all of whose calls carry another shard count never holds and never waits |
| LockService.WithdrawnStaysOut | transfer_queue/lock_manager.py:194-203 | until its tombstone is due a withdrawn token neither holds nor waits, whatever calls arrive |
| LockService.PruneShifts | transfer_queue/lock_manager.py:198-202 | pruning moves a tombstone that is not due forward by the number dropped, and drops no such one |
| LockService.EntombAt | transfer_queue/lock_manager.py:203-203 | a new tombstone renews the token's own in place and moves no other |
| LockService.ReleaseWithdrawsForGood | transfer_queue/lock_manager.py:187-203 | releasing a token that does not hold shuts it out for 300 seconds over any run, and every late acquire answers None |
| LockService.ReleaseTurnsLateCallAway | transfer_queue/lock_manager.py:188-189 | an acquire that arrives after the release is turned away if and only if the token was not holding when it was released |
| LateCall.LateCallHoldsAgain | transfer_queue/lock_manager.py:187-189 | a run from a new actor in which a token polls twice, is granted by hand-off and released, and its delayed acquire is granted again |
| Tombstones.EntombOrdered | transfer_queue/lock_manager.py:196-203 | the tombstones stay in expiry order exactly if every one behind the released token's place is as late as the new one |
| Tombstones.PruneExactIff | transfer_queue/lock_manager.py:198-202 | the pruning loop drops every expired tombstone and no other, at every instant, if and only if the list is in expiry order |
| Tombstones.StepOrder | transfer_queue/lock_manager.py:196-203 | an event leaves the list in expiry order if and only if it is not a release of a token that does not hold, with a tombstone made earlier behind its own |
| Tombstones.RunOrder | transfer_queue/lock_manager.py:197-203 | over any run insertion order is expiry order throughout if and only if no release in it is of that kind; then pruning is exact at every instant and no tombstone is later than a new one |
| Tombstones.OneReleaseEachPrunesExactly | transfer_queue/lock_manager.py:197-203 | over any run from a new actor in which each token is released at most once, the list is always in expiry order and pruning is exact |
| Tombstones.SecondReleaseBreaksOrder | transfer_queue/lock_manager.py:197-203 | the comment that insertion order is expiry order fails in a run of three releases, after which a fourth leaves a tombstone in place past its time |
| LockEffects.StepEffect | transfer_queue/lock_manager.py:125-203 | what one event at an actor can do to leases and waiters: leases in force last until they expire or are released, new ones were asked for |
| LockEffects.EnterAnswers | transfer_queue/lock_manager.py:167-168 | the seconds an acquire answers with are what its lease has left |
| LeaseSafety.PlanFromOk | transfer_queue/kv_lock.py:300-310 | a request visits shards in ascending order, at each with a non-empty list of distinct names that hash there |
| LeaseSafety.PlanCovers | transfer_queue/kv_lock.py:306-310 | every requested name is asked for at exactly the shard it hashes to |
| LeaseSafety.TakeReplyOk | transfer_queue/kv_lock.py:326-344 | taking a grant keeps the local deadline within the skew of every granted shard's expiry |
| LeaseSafety.AcquireArrivesOk | transfer_queue/lock_manager.py:125-158 | a delayed acquire that reaches its actor keeps the protocol invariant |
| LeaseSafety.AcquireWakesOk | transfer_queue/lock_manager.py:159-168 | so does the end of a suspended acquire |
| LeaseSafety.RenewArrivesOk | transfer_queue/lock_manager.py:174-184 | a delayed renewal extends what it says it extends, at every shard it reaches |
| LeaseSafety.RenewedPromise | transfer_queue/kv_lock.py:403-408 | after a round the new deadline, counted from before the requests were sent, is no later than the expiry at every shard that answered yes |
| LeaseSafety.RoundEndsOk | transfer_queue/kv_lock.py:379-408 | the end of a renewal round keeps the invariant for every lease of its batch, including those granted a shard meanwhile |
| LeaseSafety.LeaveOk | transfer_queue/kv_lock.py:347-357 | leaving the block keeps the invariant: its releases may still be on their way |
| LeaseSafety.StepOk | transfer_queue/kv_lock.py:412-476 | every step of clients, actors, renewers and delayed messages keeps the protocol invariant |
| LeaseTheorems.RunOk | transfer_queue/kv_lock.py:412-476 | the protocol invariant holds in every reachable world |
| LeaseTheorems.RoundDecides | transfer_queue/kv_lock.py:401-408 | one refusal loses the lease; if all granted shards said yes, check() passes for another lease length from before the requests were sent; silence changes nothing |
| LeaseTheorems.RefusedExactly | transfer_queue/lock_manager.py:174-184 | an actor refuses to renew a token exactly when its lease is gone or has run out |
| LeaseTheorems.CheckedLeaseHolds | transfer_queue/kv_lock.py:261-264 | a caller in the block whose deadline is more than the skew ahead holds each of its names at the actor, by a lease that has not run out |
| LeaseTheorems.MutualExclusion | transfer_queue/kv_lock.py:261-264 | in every reachable world two callers in their blocks whose deadlines are more than the skew ahead share no name |
| LeaseTheorems.ExcludesExactlyWithoutSkew | transfer_queue/kv_lock.py:336-337 | check() excludes in every run if and only if sent is read no later than the reply leaves the actor |
| LeaseTheorems.LateStampBreaksExclusion | transfer_queue/kv_lock.py:456-456 | for every positive skew there is a run in which two callers on one name both pass check() |
| LeaseRelease.LeavingReleases | transfer_queue/kv_lock.py:347-357 | in every reachable world, leaving the block sends a release to every actor where the token holds or waits, and to the one that a call under way may still reach |
| LeaseRelease.ClosingReleases | transfer_queue/kv_lock.py:567-577 | so does close() in a process that does not own the actors, for every lease that has been granted a shard |
| LeaseOrder.HoldsOnlyEarlier | transfer_queue/kv_lock.py:449-451 | a client that waits at a shard holds only at earlier shards |
| LeaseOrder.BlockerIsFurtherOn | transfer_queue/kv_lock.py:449-451 | whoever blocks a waiter waits at a later shard, or arrived earlier at the same one |
| LeaseOrder.SomeoneBlocks | transfer_queue/lock_manager.py:56-61 | no waiter waits for nothing |
| LeaseOrder.EveryWaitEndsAtARunner | transfer_queue/kv_lock.py:449-451 | from any waiter the blocked-by relation leads to a lease holder that waits nowhere |
| LeaseOrder.NoDeadlock | transfer_queue/kv_lock.py:449-451 | no chain of blocked requests over all shards closes into a cycle |
| LocalLocks.LocalTable.TakeOrQueue | transfer_queue/kv_lock.py:71-77 | takes a free name at once, or joins the end of its queue |
| LocalLocks.LocalTable.ReleaseName | transfer_queue/kv_lock.py:80-93 | hands the name to its first waiter whose loop lives, or frees it |
| LocalLocks.LocalTable.SettleWait | transfer_queue/kv_lock.py:96-108 | the grant decides, not the reason the wait ended: kept on timeout, passed on when the caller leaves |
| LocalLocks.LocalTable.ReleaseNames | transfer_queue/kv_lock.py:158-161 | releases the names one after the other, the last one first |
| LocalLocks.ExitFindsItsNames | transfer_queue/kv_lock.py:185-191 | a call that leaves finds every name it acquired in the table |
| LocalLockTheorems.GrantDecides | transfer_queue/kv_lock.py:96-108 | a wait that times out with a grant keeps the name and changes nothing else; any other ended wait leaves the call without the name, with what it had before |
| LocalLockInv.ReleaseInv | transfer_queue/kv_lock.py:80-93 | handing on or freeing a name keeps the invariant although waiters of closed loops are dropped on the way |
| LocalLockInv.EndsGrantedInv | transfer_queue/kv_lock.py:104-108 | a cancelled wait that was granted meanwhile passes the name on, and the caller owns it no more |
| LocalLockInv.EndsUngrantedInv | transfer_queue/kv_lock.py:101-105 | a wait that ends without a grant leaves its queue for good |
| LocalLockInv.ExitsInv | transfer_queue/kv_lock.py:158-161 | leaving with several names hands each of them on and keeps the invariant |
| LocalLockInv.StepInv | transfer_queue/kv_lock.py:71-161 | every step of every interleaving keeps that names have one owner, queues hold their live waiters once, and nobody is lost |
| LocalLockTheorems.Exclusion | transfer_queue/kv_lock.py:46-49 | in every reachable state a name is in the table exactly while one call owns it, no two calls own one name, and a call that left owns nothing and is in no queue |
| LocalLockTheorems.ReleaseKeepsPlace | transfer_queue/kv_lock.py:80-93 | a release moves no waiter behind one that queued after it |
| LocalLockTheorems.StepKeepsPlace | transfer_queue/kv_lock.py:80-108 | no step lets a waiter pass one ahead of it in the queue |
| LocalLockTheorems.NobodyOvertakes | transfer_queue/kv_lock.py:82-83 | over any run, while a live call waits for a name nobody who queued for it later gets it |
| LocalLockTheorems.OwnersWaitForLater | transfer_queue/kv_lock.py:154-155 | a call waits only for names after all those it owns |
| LocalLockTheorems.EveryWaitEnds | transfer_queue/kv_lock.py:154-155 | from any live waiter the chain of owners ends at a call that does not wait or whose loop is closed |
| LocalLockTheorems.NoDeadlock | transfer_queue/kv_lock.py:154-155 | sorted acquisition cannot deadlock: names grow strictly along any chain of waiting calls |
| Balancer.ItemSet.Add | transfer_queue/sampler/seqlen_balanced_sampler.py:234-236 | appends the item and adds its weight |
| Balancer.ItemSet.Merge | transfer_queue/sampler/seqlen_balanced_sampler.py:238-241 | appends the other set's items in order and adds their weights |
| Balancer.PartState.constructor | transfer_queue/sampler/seqlen_balanced_sampler.py:253-260 | one item to a set, the rest empty, in descending order |
| Balancer.PartState.Merge | transfer_queue/sampler/seqlen_balanced_sampler.py:271-274 | joins the largest sets with the smallest of the other state and sorts again; the set objects stay the same ones |
| Balancer.InitialStates | transfer_queue/sampler/seqlen_balanced_sampler.py:302-320 | one state for each chunk of the ascending list, pushed on the heap |
| Balancer.MergeStates | transfer_queue/sampler/seqlen_balanced_sampler.py:322-328 | pops two states, merges the second into the first and pushes it back until one is left; states share no set throughout |
| Balancer.KarmarkarKarp | transfer_queue/sampler/seqlen_balanced_sampler.py:301-330 | the objects end up as the state that the recursive definition gives |
| Balancer.GetSeqlenBalancedPartitions | transfer_queue/sampler/seqlen_balanced_sampler.py:333-364 | succeeds exactly when there are at least k items, k divides them if equal sizes are asked for, and no part is empty; then returns the parts with ascending indexes |
| Balance.MergeSpread | transfer_queue/sampler/seqlen_balanced_sampler.py:271-278 | merging two sorted states gives at most the wider of their spreads |
| Balance.MergeAllSpread | transfer_queue/sampler/seqlen_balanced_sampler.py:322-328 | so the final spread is at most the widest initial one |
| Balance.MergeAllItems | transfer_queue/sampler/seqlen_balanced_sampler.py:322-330 | no merge loses or doubles an item |
| Balance.MergeFilled | transfer_queue/sampler/seqlen_balanced_sampler.py:271-274 | the non-empty sets of a merge of p and q are min(k, p + q), the first ones |
| Balance.MergeAllFilled | transfer_queue/sampler/seqlen_balanced_sampler.py:322-328 | and so for the whole loop |
| Balance.MergeAllUniform | transfer_queue/sampler/seqlen_balanced_sampler.py:322-328 | states whose sets have one size each merge to such a state |
| BalanceTheorems.PartitionsCover | transfer_queue/sampler/seqlen_balanced_sampler.py:351-361 | every index is in exactly one part, once: the cover assertion never fails |
| BalanceTheorems.PartitionsNonEmpty | transfer_queue/sampler/seqlen_balanced_sampler.py:355-356 | with weights of at least zero no part is empty: that assertion never fails |
| BalanceTheorems.PartitionsEqual | transfer_queue/sampler/seqlen_balanced_sampler.py:325-330 | asked for equal sizes, every part has n / k indexes: that assertion never fails |
| BalanceTheorems.PartitionsBalanced | transfer_queue/sampler/seqlen_balanced_sampler.py:276-286 | the sums of any two parts differ by at most the largest weight, or with equal sizes by the widest chunk of the sorted list |
| BalanceTheorems.HeaviestPart | transfer_queue/sampler/seqlen_balanced_sampler.py:276-286 | k times the heaviest part is at most the total plus (k - 1) times that bound |
| BalanceTheorems.MergesTheWidest | transfer_queue/sampler/seqlen_balanced_sampler.py:322-328 | in every round no state left on the heap has a wider spread than the two that are merged |
| GroupScan.GroupSampler.ScanReady | transfer_queue/sampler/grpo_group_n_sampler.py:150-171 | the loop finds what the greedy scan from position 0 finds, and counts it |
| GroupScan.GroupSampler.Sample | transfer_queue/sampler/grpo_group_n_sampler.py:129-192 | a cached result is returned unchanged; a batch size that n does not divide is an error; otherwise the earliest disjoint blocks of n ready indexes if there are enough, else nothing; a full batch is cached only for a caller that names its rank |
| GroupScan.ScanBlocks | transfer_queue/sampler/grpo_group_n_sampler.py:154-171 | the groups are disjoint blocks of n consecutive ready indexes in ascending order |
| GroupScan.ScanIsOptimal | transfer_queue/sampler/grpo_group_n_sampler.py:154-171 | however disjoint blocks are chosen, the greedy scan finds as many, up to what is needed |
| GroupScan.ScanIsEarliest | transfer_queue/sampler/grpo_group_n_sampler.py:154-171 | and no choice of disjoint blocks has its k-th block before the scan's k-th group |
| GroupScan.SampleAnswers | transfer_queue/sampler/grpo_group_n_sampler.py:150-178 | the batch is the earliest blocks one after the other, exactly when that many disjoint blocks are ready |
| GroupScan.FindsWhatIsPossible | transfer_queue/sampler/grpo_group_n_sampler.py:173-175 | a batch is found if and only if the ready indexes contain that many disjoint blocks |
| GroupScan.SampledBatch | transfer_queue/sampler/grpo_group_n_sampler.py:177-178 | a sampled batch has batch_size ready indexes |
| GroupScan.WholePromptsExactly | transfer_queue/sampler/grpo_group_n_sampler.py:101-102 | at every batch size the groups are whole prompts if and only if each run of n or more ready indexes starts at a multiple of n |
| GroupScan.MixesPrompts | transfer_queue/sampler/grpo_group_n_sampler.py:101-102 | the documented group completeness fails on ready indexes 1 and 2 with two samples to a prompt |
| SeqlenSampler.GroupLengths | transfer_queue/sampler/seqlen_balanced_sampler.py:135-148 | sums the lengths of each group as it lies in the flat list of sampled indexes |
| SeqlenSampler.Expand | transfer_queue/sampler/seqlen_balanced_sampler.py:151-157 | group numbers become the samples of the groups, in order |
| SeqlenSampler.SeqlenBalancedSampler.Sample | transfer_queue/sampler/seqlen_balanced_sampler.py:93-190 | the first call for a batch fixes fair, balanced shares of the groups it finds and fills both caches; every call, first or later, is told the share of its own rank, a rank past the last nothing; the inherited cache holds each rank's own share |
| SeqlenSampler.FairShares | transfer_queue/sampler/seqlen_balanced_sampler.py:140-157 | every rank gets exactly batch_size samples made of whole groups, and every sampled index goes to exactly one rank |
| SeqlenSampler.BalancedShares | transfer_queue/sampler/seqlen_balanced_sampler.py:140-157 | the total lengths of any two ranks' shares differ by no more than those of any two groups |
| SeqlenRuns.AnswersAreFair | transfer_queue/sampler/seqlen_balanced_sampler.py:93-190 | over any sequence of calls, the answers to the ranks of one batch share no index, have batch_size samples of whole groups each, and are together exactly the groups that one of the calls found |
| SeqlenRuns.SameAnswer | transfer_queue/sampler/seqlen_balanced_sampler.py:93-103 | once a rank has been given samples for a batch it is always given the same |
| SeqlenSampler.UnevenExactly | transfer_queue/sampler/seqlen_balanced_sampler.py:145-149 | with enough groups, an assertion fails exactly when the per-rank batch size is not itself a multiple of n; the fallback for ungrouped samples is never reached |
| Storage.StorageUnitData.PutData | transfer_queue/storage/simple_storage.py:214-241 | checks capacity, then lengths; then each named cell holds the last value given for it, every other is as before, and the indexes are active; on an error nothing changes |
| Storage.StorageUnitData.GetData | transfer_queue/storage/simple_storage.py:192-212 | succeeds exactly if every field exists and holds every index; then each field's values come in request order; else the first field that fails decides the error |
| Storage.StorageUnitData.Clear | transfer_queue/storage/simple_storage.py:276-287 | the given indexes leave the given fields, or all fields and the active set; every other cell stays |
| Storage.StorageUnitData.ApplyUpdate | transfer_queue/storage/simple_storage.py:243-274 | a held row becomes merge(old value, new value), another named one the new value, every other cell stays; the first column that cannot be planned, read, merged or accepted decides the error, and then the unit is as it was |
| Storage.PutColumnsGiven | transfer_queue/storage/simple_storage.py:234-240 | after a put a cell holds the last value given for its field and index |
| Storage.PutColumnsElsewhere | transfer_queue/storage/simple_storage.py:234-240 | a put changes no cell it does not name |
| Storage.GetReads | transfer_queue/storage/simple_storage.py:203-212 | a read is in request order, or fails for the first field without an index |
| Storage.PutThenGet | transfer_queue/storage/simple_storage.py:192-241 | reading after a put gives the last value given where one was given and what was there before elsewhere, and fails exactly where neither is |
| Storage.UpdateWrites | transfer_queue/storage/simple_storage.py:261-274 | what an update leaves in every cell, old value merged before new, and when each error occurs |
| SsdFiles.SSDFileStore.WriteValues | transfer_queue/storage/simple_storage.py:391-413 | every write is tried; if one fails, the files of the others are gone again |
| SsdFiles.SSDFileStore.ImportFile | transfer_queue/storage/simple_storage.py:415-439 | a missing file, one of the wrong size, or a failed copy leaves no file |
| SsdFiles.RemoveFiles | transfer_queue/storage/simple_storage.py:633-652 | deleting different files takes away exactly their number and their bytes |
| HybridCells.GetDecoded | transfer_queue/storage/simple_storage.py:654-662 | reading the cells and decoding them is reading the plain unit, errors included |
| HybridCells.RefsAtDistinct | transfer_queue/storage/simple_storage.py:616-623 | cells never share a file, so the gathered references are different files |
| HybridPut.CommitFits | transfer_queue/storage/simple_storage.py:625-652 | after a put every reference has its file, no two cells share one, and no file is left over, also when an index is given twice |
| HybridPut.CommitCounts | transfer_queue/storage/simple_storage.py:642-652 | the counters move by the files written less the files made obsolete |
| HybridPut.CommitValues | transfer_queue/storage/simple_storage.py:625-652 | the values the unit then holds are those of a put on the plain unit |
| HybridStorage.HybridStorageUnitData.PrepareFieldValues | transfer_queue/storage/simple_storage.py:573-597 | values of at least the threshold go to new files, the others stay in the cells; a failed write leaves no file of the field |
| HybridStorage.HybridStorageUnitData.PutData | transfer_queue/storage/simple_storage.py:599-652 | does to the held values what the plain put does, cell by cell, with its errors, or reports a failed write; on any error cells, counters and files are as before |
| HybridStorage.HybridStorageUnitData.GetData | transfer_queue/storage/simple_storage.py:654-662 | returns what the plain unit would, in request order; no file is ever missing or of the wrong size |
| HybridStorage.HybridStorageUnitData.Clear | transfer_queue/storage/simple_storage.py:664-678 | clears what the plain unit would, deletes exactly the files of the cleared cells, and counts |
| HybridStorage.HybridStorageUnitData.ApplyUpdate | transfer_queue/storage/simple_storage.py:243-274 | merges values read back from files as the plain unit merges its own, old before new; on any error nothing has changed |
| HybridStorage.HybridStorageUnitData.SaveCheckpoint | transfer_queue/storage/simple_storage.py:680-727 | the checkpoint is complete and restores to the values held |
| HybridStorage.HybridStorageUnitData.LoadCheckpoint | transfer_queue/storage/simple_storage.py:729-786 | succeeds exactly on a complete checkpoint whose files can all be copied in; then holds its values with exact counters, else nothing has changed |
| HybridCheckpoint.SavedRestores | transfer_queue/storage/simple_storage.py:680-727 | memory values and copied files of a saved unit restore every cell |
| HybridCheckpoint.LoadFits | transfer_queue/storage/simple_storage.py:741-786 | after a load the files are exactly those copied in, the old ones are gone, and the counters are theirs |
| HybridRuns.RunBoth | transfer_queue/storage/simple_storage.py:476-786 | over any sequence of put, update, clear, clear of fields and save-then-load without a failed write, both units give the same answers and the same reads |
| HybridRuns.CountersAreExact | transfer_queue/storage/simple_storage.py:501-509 | ssd_active_values is the number of cells that refer to a file, ssd_active_bytes the sum of their sizes |
| HybridRuns.CapacityCountsSamplesExactly | transfer_queue/storage/simple_storage.py:221-228 | at every capacity a put is refused exactly when the samples would be too many, if and only if no new index is given twice |
| HybridRuns.RepeatedIndexIsRefused | transfer_queue/storage/simple_storage.py:221-228 | capacity is not counted per unique sample: one sample given twice is refused by an empty unit of capacity 1 |
| FieldMeta.FieldMetadata.Update | transfer_queue/controller.py:213-279 | the record and the error after an update, branch by branch |
| FieldMeta.FieldMetadata.RemoveSamples | transfer_queue/controller.py:281-306 | samples leave; an emptied record is reset, one with a single shape left becomes regular again |
| FieldMeta.CreateReads | transfer_queue/controller.py:596-605 | a new record reads back the shapes it was created with |
| FieldMeta.UpdateReads | transfer_queue/controller.py:213-279 | an update of the same kind never fails, and then each sample reads the last shape given for it, through promotion to nested |
| FieldMeta.UpdateDecides | transfer_queue/controller.py:226-279 | each error of an update occurs under exactly its condition and changes at most a missing dtype; otherwise samples, dtype and kind are as documented |
| FieldMeta.RemoveReads | transfer_queue/controller.py:281-306 | a removal changes no remaining shape, through the collapse back to regular |
| FieldMeta.UpdateNests | transfer_queue/controller.py:236-277 | a regular field gets shapes per sample exactly when a different shape or nested ones are sent |
| FieldMeta.RemoveCollapses | transfer_queue/controller.py:295-306 | after a removal a field has shapes per sample exactly when two samples left differ in shape |
| FieldMeta.KindChangeLosesTheShape | transfer_queue/controller.py:262-277 | a tensor shape sent to a non-tensor field is never returned |
| FieldMeta.ResetLosesTheShape | transfer_queue/controller.py:287-293 | a reset record that is used again loses the shape, so it must be dropped |
| PartitionFields.NotifyRefines | transfer_queue/controller.py:534-607 | a notification sets exactly the named cells of the map from field and sample to shape |
| PartitionFields.ClearDataRefines | transfer_queue/controller.py:932-943 | clearing samples removes exactly their cells and keeps no empty record |
| PartitionFields.ClearFieldsRefines | transfer_queue/controller.py:958-972 | clearing fields of samples removes exactly those cells and keeps no empty record |
| PartitionFields.RunRefines | transfer_queue/controller.py:586-607 | over any run the columnar metadata is the map from field and sample to the last shape written |
| Staging.AlignedOffsets | transfer_queue/utils/mooncake_utils.py:27-34 | each tensor starts at the total of the aligned sizes before it |
| Staging.SplitByBytes | transfer_queue/utils/mooncake_utils.py:49-87 | the loop computes the recursive packing of the indexes in ascending order of size |
| Staging.LayoutFits | transfer_queue/utils/mooncake_utils.py:27-34 | a group within the buffer, or alone, is laid out aligned, apart and inside the buffer |
| Staging.GroupsFit | transfer_queue/utils/mooncake_utils.py:66-87 | every tensor is in exactly one group; each group is one oversized tensor or lays out aligned, apart and inside the buffer, whatever the buffer size |
| Staging.GroupsAreGreedy | transfer_queue/utils/mooncake_utils.py:59-87 | the groups take the tensors in ascending order of size and then index, and close only at an oversized tensor or when the next would not fit |
| Staging.AlignedTotalsFitExactly | transfer_queue/utils/mooncake_utils.py:57-58 | every group's aligned total is within the buffer, as documented, if and only if no tensor fits only before its size is rounded up |
| Indexes.PartitionIndexManager.AllocateIndexes | transfer_queue/controller.py:87-132 | hands out the oldest released indexes first, in order, then new ones from the counter, and adds them to this partition only; a count that is not positive is an error |
| Indexes.PartitionIndexManager.ReleaseIndexes | transfer_queue/controller.py:157-179 | takes the indexes back into the pool, or refuses indexes of another partition |
| Indexes.PartitionIndexManager.ReleasePartition | transfer_queue/controller.py:134-155 | takes back exactly the partition's indexes |
| Indexes.AllocateConserves | transfer_queue/controller.py:87-132 | allocation keeps every index below the counter in the pool once or with one partition, and allocated_indexes within the live ones |
| Indexes.ReleaseConserves | transfer_queue/controller.py:157-179 | so does a release |
| Indexes.AllocateTracksExactly | transfer_queue/controller.py:84-132 | after an allocation allocated_indexes is the set of indexes held if and only if none was reused |
| IndexRuns.KVCreateExactly | transfer_queue/controller.py:1694-1713 | registering keys keeps key and index maps inverse if and only if no missing key is asked for twice |
| IndexRuns.ClearMetaExactly | transfer_queue/controller.py:1655-1662 | clearing active samples keeps pool and partitions apart if and only if each of them has a row; otherwise the error is swallowed and the index is released while the partition keeps it |
| IndexRuns.InsertOutgrowsRows | transfer_queue/controller.py:1308-1319 | inserting more samples than are reserved makes samples active that have no row yet |
| IndexRuns.ClearedTooEarly | transfer_queue/controller.py:1655-1662 | clearing such a sample gives its index to the next new partition while the old one still holds it |
| IndexRuns.StepInv | transfer_queue/controller.py:1057-1084 | every step keeps that a partition's indexes are its active and pre-allocated ones, apart |
| IndexRuns.IndexesConserved | transfer_queue/controller.py:68-85 | over any run no index is lost or in two places, and partitions share none |
| PartitionStatus.PartitionStatus.EnsureSamplesCapacity | transfer_queue/controller.py:448-473 | rows are added as not ready, and every consumer's vector grows with them |
| PartitionStatus.PartitionStatus.UpdateProductionStatus | transfer_queue/controller.py:497-560 | exactly the named cells become ready or hidden, with rows and columns added as needed |
| PartitionStatus.PartitionStatus.ScanDataStatus | transfer_queue/controller.py:738-781 | the ascending rows that the consumer has not had and that are ready in every requested field |
| PartitionStatus.PartitionStatus.MarkConsumed | transfer_queue/controller.py:616-635 | exactly the given rows become consumed for that consumer; with an index without a row nothing does |
| PartitionStatus.PartitionStatus.GetConsumptionStatus | transfer_queue/controller.py:638-672 | a consumer's vector is made on first use, as long as there are rows, and says what the consumer has had |
| PartitionStatus.PartitionStatus.ResetConsumption | transfer_queue/controller.py:674-694 | exactly the given consumer's vector is zeroed, or every one, each keeping its length |
| Controller.Sampler.TakeBatch | transfer_queue/sampler/rank_aware_sampler.py:118-142 | the first caller of a rank and batch index takes a prefix of the ready samples of the size asked for, later ones the same batch; the sequential sampler keeps nothing |
| Controller.Controller.Get | transfer_queue/controller.py:1331-1388 | the batch is the one kept for the caller's slot, else the n oldest rows that are ready for it, else nothing, exactly if fewer are ready; marking and vectors follow |
| Controller.Controller.Serve | transfer_queue/controller.py:2008-2068 | over any requests the consumption vectors stay as long as the production rows, the tensors and the sampler say what Delivery.Run says, and with clean resets the hand-out is exactly once |
| Delivery.ReadyBelowIs | transfer_queue/controller.py:738-781 | the scan lists exactly the rows that the consumer has not had and that are ready in every field, ascending |
| Delivery.SampledHaveRows | transfer_queue/controller.py:625-635 | every sampled index has a row, from the sampler's results too, so marking never fails |
| Delivery.NewBatch | transfer_queue/controller.py:1363-1388 | a newly sampled index has a row, is one its consumer has not had, and has all requested fields produced |
| Delivery.FetchHands | transfer_queue/controller.py:1331-1371 | what a fetch adds to the deliveries: the kept batch, or the n smallest of the ready rows, ascending, or nothing |
| Delivery.FetchInv | transfer_queue/controller.py:1331-1388 | a fetch keeps all deliveries of a consumer since its last reset apart or equal, marked and with rows |
| Delivery.ResetInv | transfer_queue/controller.py:1580-1599 | a reset keeps it when the sampler keeps no batch of the consumers reset |
| Delivery.ExactlyOnce | transfer_queue/sampler/sequential_sampler.py:28-30 | over every run whose resets find nothing of their tasks in the sampler, no consumer is handed a sample twice between its resets, and equal rank and batch index always get the same batch |
| Delivery.SequentialIsClean | transfer_queue/sampler/sequential_sampler.py:28-30 | with the sequential sampler that is every run |
| DeliveryRuns.ResetExactly | transfer_queue/controller.py:1580-1599 | hand-out exactly once survives a reset, whatever follows, if and only if the sampler keeps no batch of the consumers reset |
| DeliveryRuns.TasksIndependent | transfer_queue/controller.py:616-672 | over any run the deliveries to a consumer are those of the run without the other consumers' requests |

## Left out

- LockManager.TransferQueueLockManager.Acquire: the bounded wait itself is not modelled; a suspended call may resume at any later time, with or without a grant, which covers every timeout and every reply delay.
- LeaseTheorems.MutualExclusion: all clocks are one clock, read once per atomic step; drift between the monotonic clocks of different machines does not matter to the source, which compares each clock only with itself.
- LeaseTheorems.ExcludesExactlyWithoutSkew: nothing is assumed of when sent is read but the bound by skew; that a reading does not come before its submission is kept by the order of the steps. Real numbers stand for floating-point seconds, so rounding is not covered.
- LeaseProtocol.Closed: close() is modelled by its effect on leases (check() fails, registered leases are released); killing the actors, fork handling and the life of the renewer thread are not.
- LocalLockInv.StepInv: an interrupt that strikes a caller outside its wait, between taking a name and recording it, is not modelled.
- LocalLock.Ascending: _lock_names is taken as its result, a non-empty sorted list without repetition; the context variable that forbids nesting is not modelled.
- Balancer.MergeStates: heapq is taken as a list in the order in which it pops, ties in the order of pushing, and sorted() as insertion into a sorted list; the order among equal elements is the only difference.
- HybridStorage.HybridStorageUnitData.PrepareFieldValues: the number of values that could not be encoded is counted, but nothing is proved of the counter.
- SeqlenSampler.SeqlenBalancedSampler.Sample: ranks are natural numbers; a negative one, which would index from the end, is not modelled. A call without a partition object, which splits without balancing, is not modelled, and marking the other ranks' samples as consumed is left to their own calls.
- GroupScan.GroupSampler.Sample: the nested result dictionaries are one map, and the two returned lists one list.
- HybridStorage.HybridStorageUnitData.LoadCheckpoint: checkpoints written by the plain unit, which are encoded afresh, and damaged file names are not modelled.
- HybridStorage.HybridStorageUnitData.GetData: reads of an intact file never fail, deletions always succeed, and concurrent writes run one after the other.
- HybridStorage.HybridStorageUnitData.SaveCheckpoint: a copy that fails while saving, which only removes the unfinished checkpoint, is not modelled.
- Storage.StorageUnitData.ApplyUpdate: the description of the stored values that is sent back is not modelled; value kinds are an arbitrary predicate per column.
- PartitionFields.RunRefines: a partition holds its field records by value here; an update that changes a field's kind is covered only by FieldMeta.KindChangeLosesTheShape.
- IndexRuns.ClearMetaExactly: one partition at a time, as clear_meta handles them; mark_clearing, which callers send first and which would raise on such an index, is not part of this model.
- Delivery.ExactlyOnce: clears, after which a row stands for another sample, are left out; waiting for more data is a fetch that changes nothing but the vector it asks for.
- Delivery.Fetch: the sampler's task_name, which comes with sampling_config, is assumed equal to the one that get_metadata marks under, as StreamingDataset sets both.
- Staging.SplitByBytes: chunk_subkeys and the transfers themselves are one expression or device calls.
- The hash of names is an arbitrary function, in place of crc32.
- Ray actors and their call slots, ZMQ sockets, threads, torch tensors, pickling, metrics, checkpoints of the controller, the storage managers and the clients' wrappers are not modelled.
- list_locks and holder information only report.
