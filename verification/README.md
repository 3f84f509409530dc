# Verified models of QEMU cores

A Dafny model of six parts of QEMU whose correctness does not show in any single function, with proofs
of what they promise:

- the physical memory dispatch of `exec.c`: a multi-level page map filled by cutting sections at page
  boundaries, path-compressed in place, and read by a skipping walk behind a cached section
  (`Radix`, `PhysMap`, `Compaction`, `Dispatch`);
- exclusive sections of `cpus-common.c`: a handshake between CPUs and exclusive threads, as steps of
  any number of interleaved threads (`Exclusive`);
- permissions in the graph of block nodes of `block.c`: check, set and abort recursing over a graph
  with shared nodes, and the operations that move edges (`Permissions`, `BlockGraph`,
  `PermissionUpdate`, `Tightening`, `EdgeMoves`, `GraphChanges`, `ForcedSharing`);
- jobs and transactions of `job.c` and `blockjob.c`: the status table, completing, cancelling and
  finalising together, and the reasons for a pause (`JobTxn`, `JobPause`);
- RAM blocks, dirty bitmaps and the bounce buffer of `exec.c` (`RamList`, `DirtyMemory`,
  `BounceBuffer`);
- packet framing of `gdbstub.c`, with the GDB Remote Serial Protocol ("Debugging with GDB",
  Appendix E, section "Overview") as reference (`GdbPacket`).

What the source updates in place is a class with methods; assertions of the source appear as proved
`assert` statements or as preconditions that every caller meets; where the source aborts or reports an
error the model returns it.  Threads and the event loop are steps that may come in any order.

The page map is modelled for any node size and any number of levels, the page size is a parameter,
and addresses are unbounded integers with 64-bit wrap-around written out where the source relies on
it.  Memory is sequentially consistent, which the barriers in `cpus-common.c` and `exec.c` provide
for.

Results that the source does not say, or says otherwise:

- `job_do_finalize` does not cancel the job it was called for.  If the prepare function of another job
  fails first, all jobs abort except that one, which commits (`JobTxn.Transaction.UserFinalize`,
  `JobTxn.SplitOutcome`).
- `bdrv_replace_child` asserts that taking a parent away tightens nothing.  That holds in every graph
  in which each node has what it needs from its children.  All operations keep that, except that
  `bdrv_replace_node` loses it when it moves an edge from a node that forces its users to share to one
  that does not.  The assertion can fail then, in a graph of a read-only format node with the default
  permissions (`ForcedSharing.ForceShareLost`).  It does so, when the removed user is one whose needs
  others have as well, if and only if some edge that moved withholds again what its new node's other
  parents let happen (`ForcedSharing.ReplaceThenDetach`), and above format nodes whoever is removed
  (`ForcedSharing.MetadataWithheld`).
- `find_ram_offset` is right without any assumption about overflow: where rounding up wraps, the
  candidate is 0 and the gap before the first block is considered (`RamList.GapIsFree`).
- A run of repeats may not fill the packet buffer to its last byte although single bytes may
  (`GdbPacket.RepeatCannotFill`); what fits is delivered and nothing else (`GdbPacket.DeliveredIfFits`).

## Model

| member | source | states |
|---|---|---|
| PhysMap.PhysPageMap.constructor | hw3/qemu-master/exec.c:2927-2938 | a new page map is well formed and empty |
| PhysMap.PhysPageMap.Reserve | hw3/qemu-master/exec.c:190-198 | afterwards there is room for the reserved nodes |
| PhysMap.PhysPageMap.NodeAlloc | hw3/qemu-master/exec.c:200-218 | the new node is the next one, has unassigned leaves at the lowest level and missing nodes above; the assertions on the node number hold |
| PhysMap.PhysPageMap.SetLevel | hw3/qemu-master/exec.c:220-244 | from any slot, the pages of the range below that slot lead to the section, all other pages are found as before, the range is used up to the slot's end, and the nodes spent are bounded by the levels below |
| PhysMap.PhysPageMap.Set | hw3/qemu-master/exec.c:246-254 | a range update of the flat map from pages to sections, which costs at most 2 * levels - 1 nodes |
| Compaction.PageCompact | hw3/qemu-master/exec.c:259-308 | every entry afterwards skips only nodes with a single used slot of the original tree, entries above are untouched, skip counts fit their six bits, and nothing below can be shortened further |
| Compaction.DispatchCompact | hw3/qemu-master/exec.c:310-315 | the same for the whole map: maximal path compression |
| Compaction.FindsTheSame | hw3/qemu-master/exec.c:259-308 | a page that was assigned leads to the same section through any compressed tree |
| Compaction.FindsSomething | hw3/qemu-master/exec.c:259-308 | whatever a walk of the compressed tree finds is what some page of the original tree leads to |
| Compaction.ShortensMore | hw3/qemu-master/exec.c:282-307 | skipping one more single-slot node keeps an entry a shortening of the original |
| Dispatch.CompactionKeepsFind | hw3/qemu-master/exec.c:256-349 | for every address, a lookup finds the same section before and after compaction, although the walk ignores address bits |
| Dispatch.AddressSpaceDispatch.constructor | hw3/qemu-master/exec.c:2896-2938 | the new table says that every byte is unassigned |
| Dispatch.AddressSpaceDispatch.SubpageRegister | hw3/qemu-master/exec.c:2857-2875 | exactly the entries of the range get the section, or none if the range leaves the page |
| Dispatch.AddressSpaceDispatch.FreshSubpage | hw3/qemu-master/exec.c:1509-1514 | a vacant page leads to a new section with an empty table of its own; no other page changes |
| Dispatch.AddressSpaceDispatch.RegisterSubpage | hw3/qemu-master/exec.c:1494-1522 | the page is vacant or a subpage already, and the bytes of the section are added to what the table says |
| Dispatch.AddressSpaceDispatch.RegisterMultipage | hw3/qemu-master/exec.c:1525-1536 | the bytes of a section of whole pages are added to what the table says |
| Dispatch.AddressSpaceDispatch.AddToDispatch | hw3/qemu-master/exec.c:1545-1581 | the bytes of any section whose bytes are free are added to what the table says, with at most five new sections; it gives up only for want of section numbers |
| Dispatch.EnterPages | hw3/qemu-master/exec.c:1525-1536 | pointing the section's pages at it makes every byte resolve as meant and keeps all other bytes |
| Dispatch.EnterSubpage | hw3/qemu-master/exec.c:1515-1521 | the same for a part of a page that has a table |
| Dispatch.EnterFresh | hw3/qemu-master/exec.c:1509-1521 | the same for a part of a vacant page |
| Dispatch.PartlyFree | hw3/qemu-master/exec.c:1507 | a page with a free byte is vacant or a subpage: the assertion holds |
| Dispatch.CutSection | hw3/qemu-master/exec.c:1551-1580 | entering a section in two pieces amounts to entering it at once |
| Dispatch.AddressSpaceDispatch.Compact | hw3/qemu-master/exec.c:310-315 | every lookup finds what it found before |
| Dispatch.AddressSpaceDispatch.PhysPageFind | hw3/qemu-master/exec.c:328-349 | the loop stays inside the nodes and finds what the recursive walk and the re-check of the section define |
| Dispatch.AddressSpaceDispatch.LookupRegion | hw3/qemu-master/exec.c:352-369 | the answer is that of the walk whatever the cached section is, and it is the region and offset that was entered for the byte, or unassigned |
| Dispatch.CoveredIsFound | hw3/qemu-master/exec.c:358-363 | every byte that a found section covers is found in that section, so it may be cached |
| Dispatch.AddressSpaceDispatch.TranslateInternal | hw3/qemu-master/exec.c:372-405 | region and offset of the byte are those entered; for RAM the length is cut to the section and all bytes up to there are consecutive in the same region |
| Dispatch.BuildDispatch | hw3/qemu-master/exec.c:1545-1581 | a table built from any non-overlapping sections and compacted holds exactly their bytes |
| Exclusive.MutualExclusion | hw3/qemu-master/cpus-common.c:173-301 | in every run of any number of threads, while one is exclusive no CPU executes and no other is exclusive |
| Exclusive.WaitingIsCounted | hw3/qemu-master/cpus-common.c:182-301 | while the owner waits the counter is one more than the number of CPUs with has_waiter, and none of these is parked waiting for the owner |
| Exclusive.CountedOnce | hw3/qemu-master/cpus-common.c:269-301 | while the owner waits, counter and flags change only by a counted CPU taking itself off |
| Exclusive.NoDeadlock | hw3/qemu-master/cpus-common.c:173-301 | whenever a thread is inside one of the functions, a thread can move, or a CPU that was told to stop still executes, or a thread is exclusive |
| Exclusive.RunInv | hw3/qemu-master/cpus-common.c:173-301 | the protocol's invariant holds in every state of every run |
| Exclusive.NextKeeps | hw3/qemu-master/cpus-common.c:173-301 | every step of any thread keeps the invariant |
| Exclusive.Returns | hw3/qemu-master/cpus-common.c:173-301 | in every run a thread leaves start_exclusive only as the exclusive owner, cpu_exec_start only to execute with its CPU marked as running, end_exclusive and cpu_exec_end only to be outside, holding nothing; and enters each only from there |
| Exclusive.StepShrinks | hw3/qemu-master/cpus-common.c:173-301 | every step of a call under way leaves the threads together less to do, a broadcast and a signal included |
| Exclusive.NoEndlessRun | hw3/qemu-master/cpus-common.c:173-301 | without new calls and spurious wake-ups no run is endless, with a bound on its steps |
| Exclusive.RunsOut | hw3/qemu-master/cpus-common.c:173-301 | every run can be continued by the calls under way until all threads are outside |
| Exclusive.CallsReturn | hw3/qemu-master/cpus-common.c:173-301 | from every state of every run, whatever the other threads do, every call can return: start_exclusive with exclusivity, cpu_exec_start with the right to execute |
| Exclusive.CanBeExclusive | hw3/qemu-master/cpus-common.c:182-214 | from every state of every run a thread that is outside can come to be exclusive |
| Exclusive.CanExecute | hw3/qemu-master/cpus-common.c:228-265 | and can come to execute guest code |
| Permissions.DefaultPermsMonotone | hw3/qemu-master/block.c:2373-2518 | parents that need less never make a node need more of a child |
| Permissions.DefaultPermsShareUnchanged | hw3/qemu-master/block.c:2373-2518 | no default function stops sharing WRITE_UNCHANGED |
| Permissions.FilteredChild | hw3/qemu-master/block.c:2367-2381 | what a filter needs of its child, for each permission |
| Permissions.BackingChild | hw3/qemu-master/block.c:2383-2417 | a backing file is at most read; when others may write it |
| Permissions.StorageChild | hw3/qemu-master/block.c:2419-2496 | what a format node needs of its file and withholds there, for each permission, by role and flags |
| BlockGraph.DefaultDrivers | hw3/qemu-master/block.c:2498-2518 | graphs of drivers with the default functions meet what the results below ask of drivers |
| PermissionUpdate.Blocks.CumulativePerm | hw3/qemu-master/block.c:2141-2155 | the loop gives the union of what the parents use and the intersection of what they share |
| PermissionUpdate.FoldIsCum | hw3/qemu-master/block.c:2141-2155 | the order of the parents does not matter |
| BlockGraph.ChildNeedMonotone | hw3/qemu-master/block.c:1950-1964 | a node that is needed for less needs no more of any child, with forced sharing taken into account |
| PermissionUpdate.Blocks.CheckPerm | hw3/qemu-master/block.c:1985-2083 | on success every node from this one on that is written to is writable, and aligned unless it may be resized, each edge carries what its node needs, every node below is settled, all parents get along, and every edge below has its backup; it fails as read-only exactly if the need writes and the node is not writable, and as unaligned likewise; a failure below has its cause in what an earlier visited node asked of an edge; only edges below change and can be undone; tightening is reported if and only if there is a conflict or some node, at whatever depth, has to take new permissions or to unshare some, by a log of the nodes visited that accounts for all cumulative permissions at the end; a check that loosens, and one that changes nothing for any node, meets no conflict and tightens nothing |
| PermissionUpdate.Blocks.CheckUpdatePerm | hw3/qemu-master/block.c:2205-2264 | the same for a need on top of the parents not ignored; it fails with a conflict exactly at this node if the need does not get along with one of them, and otherwise at this node exactly if it cannot be used like this |
| PermissionUpdate.Blocks.ChildCheckPerm | hw3/qemu-master/block.c:2268-2298 | on success, on any graph without cycles, the edge has its need and its backup, every node from its target on is settled and can be written to if it is, and the parents of every node get along; it fails at its target exactly as above; tightening is reported as by the check of the target |
| PermissionUpdate.EdgeStaysChecked | hw3/qemu-master/block.c:2060-2080 | checking a further child keeps what was established for the earlier ones, also where they share nodes |
| BlockGraph.ElsewhereSame | hw3/qemu-master/block.c:2268-2298 | an update of an edge and of what is below its target leaves all other nodes, apart from the edge's own, as settled as they were |
| PermissionUpdate.Blocks.SetPerm | hw3/qemu-master/block.c:2110-2139 | after a check no permission changes and exactly the backups below are dropped |
| PermissionUpdate.Blocks.ChildSetPerm | hw3/qemu-master/block.c:2300-2312 | the same for an edge and everything below its target |
| PermissionUpdate.Blocks.AbortPermUpdate | hw3/qemu-master/block.c:2092-2108 | every edge below has what it had before the update and no backup, other edges are untouched |
| PermissionUpdate.Blocks.ChildAbortPermUpdate | hw3/qemu-master/block.c:2314-2323 | the same for an edge and everything below its target |
| PermissionUpdate.AbortUndoes | hw3/qemu-master/block.c:2092-2108 | a failed check, at whatever depth, followed by the abort leaves the edges exactly as they were |
| PermissionUpdate.LooseChildUpdate | hw3/qemu-master/block.c:2205-2264 | a smaller need on an edge conflicts with nobody and loosens its target |
| PermissionUpdate.CheckedFit | hw3/qemu-master/block.c:2009-2043 | what has been checked is written to only where it is writable, and aligned or to be resized |
| PermissionUpdate.CauseStep | hw3/qemu-master/block.c:2060-2080 | each visit of a check derives from what an earlier one asks of an edge, edges have what they had or what a visit asked, and a conflict is between an asked need and another edge |
| PermissionUpdate.LooseLog | hw3/qemu-master/block.c:1972-1977 | if no visit of a check tightens, the parents of no node need more at the end than at the beginning |
| Tightening.LoosenExact | hw3/qemu-master/block.c:2642-2645 | the assertion of bdrv_replace_child holds if every node below has what it needs; where edges only share more than they may, it holds if and only if taking that back changes what no node's parents share together and conflicts with none of them |
| Tightening.SameBelow | hw3/qemu-master/block.c:2642-2645 | if the assertion holds, the parents of every node below need together what they needed before |
| Tightening.HeldWithheld | hw3/qemu-master/block.c:2642-2645 | if the assertion holds and the check passes, what the node of an edge below never shares was not shared by all parents of the target before |
| GraphChanges.TrySetPerm | hw3/qemu-master/block.c:2325-2354 | for any request: either the edge gets its permissions and everything below is settled, with writers on writable nodes only, or there is a cause and nothing changes; that is an error exactly if there is a conflict or some visit tightens; where the target has no children and no check of its own the request is granted if and only if it conflicts with no other parent and the target can be used like this; a request that loosens never fails; a graph at rest stays so if the request is no less than what the node of the edge needs |
| GraphChanges.RefreshPerms | hw3/qemu-master/block.c:2356-2366 | the edge gets exactly what its node needs of it now and everything below is settled, or there is a cause and nothing changes; in a graph at rest it never fails and loosens |
| GraphChanges.Loosen | hw3/qemu-master/block.c:2636-2652 | whether the assertion that nothing is tightened holds is as above; if it holds nodes keep what they need, the graph is quiet again, and everything below is settled if no node minds being used less and no driver refuses; in a graph at rest it holds and no edge needs more than before |
| GraphChanges.ReplaceChild | hw3/qemu-master/block.c:2616-2658 | the edge leads to the checked node without a cycle; whether the assertion holds is as above; it holds and the graph is at rest, with every edge needing the same or less, if all nodes have what they need and forced sharing is not lost |
| GraphChanges.MoveEdge | hw3/qemu-master/block.c:2538-2603 | the edge changes from one list of parents to the other, and a move that does not go below the new target makes no cycle |
| GraphChanges.RootAttach | hw3/qemu-master/block.c:2670-2731 | the edge is attached, everything below settled and written to only where writable, or there is a cause and nothing changes; a node without children and check of its own takes it if and only if the need conflicts with no parent and the node can be used like this |
| GraphChanges.DetachChild | hw3/qemu-master/block.c:2771-2779 | any edge, of a node or of an outside user, is taken out of the children of its node and leads nowhere; whether the assertion holds is as above; a graph at rest stays at rest and no edge needs more than before |
| GraphChanges.ShouldUpdateChild | hw3/qemu-master/block.c:4441-4518 | the breadth-first search says no exactly if the edge stays at its node or belongs to `to` or to a node below it |
| GraphChanges.ExploredAll | hw3/qemu-master/block.c:4490-4512 | when the queue is empty everything below `to` has been found |
| GraphChanges.CollectParents | hw3/qemu-master/block.c:4534-4547 | the list holds exactly the edges that may be moved, with what they need together, or a frozen one is named |
| GraphChanges.ReplaceNode | hw3/qemu-master/block.c:4520-4578 | all edges that may be moved lead to `to`, or nothing changes; no cycles, only edges below `to` change, all parents get along, everything below `to` settled and written to only where writable; a frozen edge among them is reported exactly if there is one; a failure has its cause, and a `to` without children and check of its own takes the edges if and only if they conflict with none of its parents and it can be used like this; each node keeps what it needs unless an edge of it loses forced sharing |
| GraphChanges.Run | hw3/qemu-master/block.c:2325-2779 | through any sequence of permission changes, refreshes, attachments, removals and replacements, with the one guard that a node that forces sharing is not replaced by one that does not, the graph stays at rest: the parents of every node get along, no read-only node has a writer, there are no cycles, and the assertions hold |
| GraphChanges.SingleWriter | hw3/qemu-master/block.c:2419-2496 | in a graph at rest two active format nodes, one of them writable, share no file unless that forces sharing |
| GraphChanges.SafeAfter | hw3/qemu-master/block.c:2009-2027 | an update that settles everything from a node on brings no writer to a read-only node |
| GraphChanges.SettledEdge | hw3/qemu-master/block.c:1950-1964 | a settled node has of each child what its driver needs, sharing everything exactly where the child forces that |
| EdgeMoves.MovedShape | hw3/qemu-master/block.c:4441-4578 | moving edges that are not below `to` leaves the graph without cycles |
| EdgeMoves.MovedReach | hw3/qemu-master/block.c:4520-4578 | the nodes below `to` stay the same |
| EdgeMoves.MovedConflictFree | hw3/qemu-master/block.c:4549-4572 | a check of the moved edges together is enough for all pairs of parents |
| EdgeMoves.MovedEnough | hw3/qemu-master/block.c:4520-4578 | elsewhere a node misses nothing after the move unless an edge of it loses forced sharing |
| ForcedSharing.ReplaceThenDetach | hw3/qemu-master/block.c:4520-4578 | from any graph at rest, bdrv_replace_node and then the removal of any user outside the graph, in terms of the graph before: the assertion of bdrv_replace_child holds if no node below that user loses forced sharing; if it holds and the check passes, what the driver of a lost edge never shares is withheld from the new node anyway; if others need what the user needs, and no driver of its own refuses, it holds if and only if each lost edge is covered |
| ForcedSharing.MetadataWithheld | hw3/qemu-master/block.c:2419-2496 | so for an active format node, with writing shared by the other users of its new file, the assertion fails at the removal of any user above unless a node refuses before |
| ForcedSharing.EdgeBelow | hw3/qemu-master/block.c:1950-1964 | an edge below is needed for what it carries, unless it lost forced sharing; then giving it that is harmless if and only if another parent-to-be of the new node withholds as much and none uses it |
| ForcedSharing.NoneLostEnough | hw3/qemu-master/block.c:4520-4578 | if no edge below loses forced sharing, every node below has what it needs after the replacement |
| ForcedSharing.ExampleRests | hw3/qemu-master/block.c:2419-2496 | a read-only format node with the default permissions on a file opened with force-share is a graph at rest |
| ForcedSharing.ForceShareLost | hw3/qemu-master/block.c:2636-2645 | there, replacing the file by one opened without force-share and removing one of two users that need nothing makes the assertion fail |
| JobTxn.Transaction.constructor | hw3/qemu-master/job.c:117-128 | the jobs of a new transaction are created and in its list |
| JobTxn.Transaction.Transition | hw3/qemu-master/job.c:179-192 | every transition is one that the table of job.c:38-51 allows |
| JobTxn.TablesAgree | hw3/qemu-master/job.c:37-62 | the two tables fit: no transition leads back, and each verb is accepted exactly where what it does can still happen |
| JobTxn.Transaction.FinalizeSingle | hw3/qemu-master/job.c:637-711 | the job leaves the list having committed exactly if it has no error, a cancelled one having got one; it is gone if it is dismissed automatically or never started and has concluded otherwise; all transitions on the way are allowed |
| JobTxn.Transaction.AbortLoop | hw3/qemu-master/job.c:761-771 | completed jobs are finalised from the front of the list until one has to be waited for, which is cancelled |
| JobTxn.Transaction.TxnAbort | hw3/qemu-master/job.c:729-776 | the first abort cancels all other jobs and finalises what has completed; later ones change nothing |
| JobTxn.Transaction.PrepareAll | hw3/qemu-master/job.c:778-785 | the prepare functions are called in order up to the first failure, whose job is aborting |
| JobTxn.Transaction.FinalizeAll | hw3/qemu-master/job.c:799-803 | all jobs commit, once |
| JobTxn.Transaction.DoFinalize | hw3/qemu-master/job.c:792-804 | the transaction is over: all jobs commit if no prepare function fails, otherwise all abort except the one that finalises unless it is the first to fail; so they end alike if and only if none fails or that of the finalising job fails first; jobs that are dismissed automatically are gone and the others have concluded |
| JobTxn.Transaction.OthersDone | hw3/qemu-master/job.c:841-846 | completed siblings have result 0; if all have completed all are waiting |
| JobTxn.Transaction.TxnSuccess | hw3/qemu-master/job.c:830-854 | as long as a sibling is not done nothing else happens; otherwise all are pending if one is to be finalised by the user, and else the transaction ends as by job_do_finalize |
| JobTxn.Transaction.Completed | hw3/qemu-master/job.c:856-867 | a job that failed or is cancelled makes the transaction abort, any other waits for its siblings, and the last of them makes all pending or ends the transaction as above; the job has not completed before |
| JobTxn.Transaction.Start | hw3/qemu-master/job.c:914-924 | a created job runs; the invariant of the transaction is kept |
| JobTxn.Transaction.PausePoint | hw3/qemu-master/job.c:484-505 | a job that is not cancelled pauses in the status that remembers whether it was ready |
| JobTxn.Transaction.Unpause | hw3/qemu-master/job.c:504-507 | a paused job is what it was before |
| JobTxn.Transaction.ToReady | hw3/qemu-master/job.c:824-828 | a running job becomes ready |
| JobTxn.Transaction.Return | hw3/qemu-master/job.c:902-912 | the result is recorded and job_exit is due |
| JobTxn.Transaction.Exit | hw3/qemu-master/job.c:870-896 | the job completes as above, whatever else has happened to the transaction since its coroutine returned |
| JobTxn.Transaction.ContinueAbort | hw3/qemu-master/job.c:761-771 | the abort goes on when a job it waited for has completed |
| JobTxn.Transaction.UserCancel | hw3/qemu-master/job.c:926-948 | refused exactly for a job that is aborting, concluded or gone; a job that has not started or has returned makes the transaction abort, any other is only marked |
| JobTxn.Transaction.UserFinalize | hw3/qemu-master/job.c:806-813 | refused exactly unless the job is pending; otherwise the transaction ends as above, told by the prepare functions before the call |
| JobTxn.Transaction.UserDismiss | hw3/qemu-master/job.c:618-629 | refused exactly unless the job has concluded; otherwise it is gone, and has been dismissed once |
| JobTxn.Run | hw3/qemu-master/job.c:484-948 | for any steps in any order, also while an abort waits: no assertion fails, and in a transaction that is over each job has committed or aborted once, and a started job that is not dismissed automatically has concluded until the user dismisses it, once, while any other is gone |
| JobTxn.Outcome | hw3/qemu-master/job.c:645-804 | in a transaction that is over each job has committed or aborted once: committed if nothing aborted, aborted if a job failed or was cancelled; and which jobs have concluded and which are gone |
| JobTxn.SplitOutcome | hw3/qemu-master/job.c:792-804 | a run from two new jobs: they return, become pending, and finalising the first while the second fails to prepare makes the first commit and the second abort |
| JobTxn.AbortedFailure | hw3/qemu-master/job.c:729-776 | an abort after a failure or a cancellation lets no job commit |
| JobTxn.AbortedPrepare | hw3/qemu-master/job.c:792-804 | an abort after a failed prepare function lets all jobs abort but the one finalised |
| JobPause.BlockJob.constructor | hw3/qemu-master/job.c:334-336 | a new job has one reason to be paused |
| JobPause.BlockJob.ShouldPause | hw3/qemu-master/job.c:272-275 | exactly if the job is not started, or the user has paused it, or a drained section is open |
| JobPause.BlockJob.Start | hw3/qemu-master/job.c:914-924 | starting takes away one reason |
| JobPause.BlockJob.DrainedBegin | hw3/qemu-master/blockjob.c:99-103 | one more reason |
| JobPause.BlockJob.DrainedEnd | hw3/qemu-master/blockjob.c:127-131 | one reason less; the assertion on the counter holds |
| JobPause.BlockJob.UserPause | hw3/qemu-master/job.c:570-581 | refused exactly if the verb is or the user has paused already |
| JobPause.BlockJob.UserResume | hw3/qemu-master/job.c:588-603 | refused exactly if the verb is or the user has not paused; otherwise the I/O status is reset |
| JobPause.BlockJob.IoStatusReset | hw3/qemu-master/blockjob.c:464-471 | the assertion that the user has paused holds |
| JobPause.BlockJob.CancelAsync | hw3/qemu-master/job.c:713-727 | a cancelled job is not held by the user's pause; the assertion on the counter holds |
| JobPause.BlockJob.HandleError | hw3/qemu-master/blockjob.c:479-517 | which errors stop the job, by the policy; one that does pauses it once, and the first one decides the I/O status |
| JobPause.Run | hw3/qemu-master/blockjob.c:464-517 | for any steps in any order: the counter is the number of reasons and an I/O error implies a pause by the user |
| RamList.RamBlocks.FindRamOffset | hw3/qemu-master/exec.c:1902-1952 | the offset is the least aligned one not below the end of some block, or 0 where that wraps, there is room for the block, and no block is followed by a smaller gap that fits; it gives up exactly if no gap after a block fits, and then what room there is lies before all blocks |
| RamList.CandidateIs | hw3/qemu-master/exec.c:1919-1920 | rounding up finds the least aligned offset after a block, or 0 if there is none |
| RamList.RoomFits | hw3/qemu-master/exec.c:1912-1939 | room anywhere after a block makes the gap after the last block before it fit |
| RamList.GapIsFree | hw3/qemu-master/exec.c:1912-1939 | a block put into a gap that fits is aligned and apart from all others, also where rounding up wraps |
| RamList.RoundUpIs | hw3/qemu-master/include/qemu/osdep.h:321-326 | rounding up in 64 bits gives the next multiple, or 0 |
| RamList.BestFitIsFree | hw3/qemu-master/exec.c:1902-1952 | a block at a best fit is aligned and apart from all others |
| RamList.RamBlocks.Insert | hw3/qemu-master/exec.c:2271-2289 | the list has one block more and stays sorted by decreasing length |
| RamList.RamBlocks.Free | hw3/qemu-master/exec.c:2492-2510 | the list has lost one block, and no block is cached |
| RamList.RamBlocks.GetRamBlock | hw3/qemu-master/exec.c:1246-1282 | the one block that holds the address, whatever is cached, or none |
| RamList.DifferenceWraps | hw3/qemu-master/exec.c:1251-1258 | the comparison of the wrapped difference says whether the block holds the address |
| DirtyMemory.TestAndClearPages | hw3/qemu-master/exec.c:1327-1337 | exactly the asked pages are cleared, and the answer is whether one of them was dirty, across chunks |
| DirtyMemory.Ram.TestAndClearDirty | hw3/qemu-master/exec.c:1305-1351 | the same for a range of bytes in a live block, for one client only |
| DirtyMemory.SnapshotPages | hw3/qemu-master/exec.c:1376-1393 | the snapshot is what the pages were, and the pages are clean; whole words are copied |
| DirtyMemory.Ram.SnapshotAndClearDirty | hw3/qemu-master/exec.c:1353-1401 | the snapshot covers the range and holds everything that is cleared, also where rounding goes beyond the range, and no page of another live block changes |
| DirtyMemory.SnapshotRange | hw3/qemu-master/exec.c:1357-1371 | rounding to whole words never leaves the chunks |
| DirtyMemory.SnapshotGetDirty | hw3/qemu-master/exec.c:1403-1422 | whether a page of the range was dirty when the snapshot was taken |
| DirtyMemory.Ram.LastRamPage | hw3/qemu-master/exec.c:1954-1964 | the largest page end of a live block |
| DirtyMemory.Ram.Extend | hw3/qemu-master/exec.c:2191-2229 | chunks of live pages stay, the others are clean, and no page below the old size changes |
| DirtyMemory.Ram.SetDirtyRange | hw3/qemu-master/include/exec/ram_addr.h:286-340 | exactly the pages of the range are dirty for all clients |
| DirtyMemory.Ram.BlockAdd | hw3/qemu-master/exec.c:2231-2313 | the block is at a best fit, the chunks cover it, all live blocks keep their dirty pages, and its own are dirty; or nothing changes, because there is no host memory or no gap fits |
| DirtyMemory.Ram.BlockFree | hw3/qemu-master/exec.c:2492-2510 | the chunks cover the remaining blocks |
| DirtyMemory.Run | hw3/qemu-master/exec.c:2191-2313 | through any additions, removals and lookups the blocks stay aligned, apart and sorted, the chunks cover them, and a lookup finds the one block that holds the address |
| BounceBuffer.OneMapping | hw3/qemu-master/exec.c:3558-3641 | in every run at most one thread owns the bounce buffer, from taking it to giving it back, and the buffer holds what its mapping put there |
| BounceBuffer.NoLostWakeup | hw3/qemu-master/exec.c:3428-3487 | in every run a client stays queued only while the buffer is in use or an unmapper has yet to notify |
| BounceBuffer.ClientsConserved | hw3/qemu-master/exec.c:3428-3480 | every registered client is woken once, unregistered or still queued |
| BounceBuffer.QuietMeansServed | hw3/qemu-master/exec.c:3428-3641 | when all threads are idle the buffer is free and nobody waits |
| BounceBuffer.RunKeeps | hw3/qemu-master/exec.c:3428-3641 | the invariant holds in every state of every run |
| BounceBuffer.MapCall | hw3/qemu-master/exec.c:3579-3600 | mapping takes and fills the buffer if and only if it is free |
| BounceBuffer.UnmapCall | hw3/qemu-master/exec.c:3630-3641 | unmapping leaves the buffer free and all clients woken |
| BounceBuffer.RegisterCall | hw3/qemu-master/exec.c:3439-3450 | a client that is registered waits while the buffer is in use, and is woken with all others otherwise |
| BounceBuffer.UnregisterCall | hw3/qemu-master/exec.c:3468-3480 | a client that is unregistered waits no longer |
| BounceBuffer.RunsOut | hw3/qemu-master/exec.c:3428-3641 | every run can be continued by the calls under way until all threads are idle, the buffer is free and every client has been woken or unregistered |
| GdbPacket.NeverOverruns | hw3/qemu-master/gdbstub.c:2841-2955 | on every byte stream the buffer index stays below 4096 and no longer packet is delivered |
| GdbPacket.DecodesBody | hw3/qemu-master/gdbstub.c:2858-2926 | plain, escaped and repeated bytes decode as the protocol says |
| GdbPacket.DecodesPacket | hw3/qemu-master/gdbstub.c:2841-2955 | a whole packet is delivered if the two digits are its sum in either letter case, refused otherwise, and the receiver is idle again |
| GdbPacket.EitherCase | hw3/qemu-master/gdbstub.c:548-566 | which bytes are the hex digit of a value, in either case |
| GdbPacket.FlipIs | hw3/qemu-master/gdbstub.c:2883 | an escaped byte has bit 5 turned over and no other |
| GdbPacket.DeliveredIfFits | hw3/qemu-master/gdbstub.c:2841-2955 | a packet with the right digits is delivered if and only if its expansion fits the buffer; if not the receiver is idle again without having delivered anything |
| GdbPacket.FalseEnd | hw3/qemu-master/gdbstub.c:2918-2935 | a '#' that no two hex digits follow is dropped with what follows it, and the packet goes on |
| GdbPacket.FalseRepeat | hw3/qemu-master/gdbstub.c:2888-2907 | a repeat count that is none, or a repeat of nothing, adds no byte |
| GdbPacket.LoneEscape | hw3/qemu-master/gdbstub.c:2873-2876 | an escape with nothing after it ends with the packet |
| GdbPacket.Memtox | hw3/qemu-master/gdbstub.c:679-695 | appends the escaped bytes |
| GdbPacket.EscapeExpands | hw3/qemu-master/gdbstub.c:679-695 | expansion undoes escaping, and the result fits the receiver exactly up to 4095 bytes |
| GdbPacket.EscapeBytesIsWire | hw3/qemu-master/gdbstub.c:679-695 | escaped bytes are the wire form of the protocol's tokens |
| GdbPacket.PutPacketBinary | hw3/qemu-master/gdbstub.c:625-663 | the frame of the protocol around a body |
| GdbPacket.SignedSumAgrees | hw3/qemu-master/gdbstub.c:635-640 | the sender's sum of signed chars and the receiver's of bytes agree modulo 256 |
| GdbPacket.RoundTrip | hw3/qemu-master/gdbstub.c:625-695 | what is escaped and framed is acknowledged and delivered unchanged up to 4095 bytes; of a longer payload nothing is delivered |
| GdbPacket.RepeatCannotFill | hw3/qemu-master/gdbstub.c:2900-2926 | a packet whose last token is a repeat that would reach 4095 bytes is not delivered, whatever its digits, although single bytes may fill the buffer |
| GdbPacket.Retransmits | hw3/qemu-master/gdbstub.c:2814-2831 | the last reply is sent again for every negative acknowledgement until a positive one |
| GdbPacket.Outstanding | hw3/qemu-master/gdbstub.c:2814-2832 | while a reply is outstanding nothing but an acknowledgement or a new packet has an effect, and refusals send the reply again |
| GdbPacket.Abandons | hw3/qemu-master/gdbstub.c:2828-2832 | a new packet abandons the outstanding reply and is taken like any other |
| GdbPacket.StopsMachine | hw3/qemu-master/gdbstub.c:2833-2836 | a byte that comes while the machine runs stops it and is lost |
| GdbPacket.QuietSession | hw3/qemu-master/gdbstub.c:2810-2955 | a stopped session with no reply outstanding delivers exactly the packets its parser accepts, and answers each as the parser says |
| GdbPacket.SessionRoundTrip | hw3/qemu-master/gdbstub.c:2810-2955 | a payload of at most 4095 bytes that is escaped, framed and read by a stopped session is handed over unchanged and answered by one '+' |
| GdbPacket.SessionRefuses | hw3/qemu-master/gdbstub.c:2938-2943 | a packet with another checksum is answered by '-' and handed over to nobody |
| GdbPacket.GdbServer.ReadByte | hw3/qemu-master/gdbstub.c:2810-2955 | the in-place parser over a fixed buffer does what the parser on values does, for every byte in every state |

## Left out

- hw1, hw2 and the xv6 sources: load generators, a shell and a boot loader with nothing to prove beyond single loops.
- block.c reopening: open flags do not change during an operation, and there is no reopen queue.
- block.c attaching a child to a node: only the permission part, as `GraphChanges.RootAttach`.
- block.c drained sections and AioContexts in `bdrv_replace_child_noperm` and `bdrv_replace_node`.
- block.c drivers: a driver with its own check may refuse anything and has no children; the others derive what they need by a function that depends on the edge and on the cumulative permissions only.
- GraphChanges.ReplaceNode: keeps the graph at rest only if forced sharing is not lost, which is what the code does; `ForcedSharing.ReplaceThenDetach` says what follows.
- ForcedSharing.ReplaceThenDetach: the if-and-only-if is for users whose needs others have too, because otherwise an edge may loosen before or after another one to the same node tightens, and that order is not part of what a check promises; it is also for graphs settled below the user, without unaligned images there, and with edges that stay at their node only for users outside the graph, as jobs are (blockjob.c:173).
- job.c liveness: whether a job that is waited for completes is up to its driver.
- job.c reference counts, AioContexts, timers and events.
- job.c callbacks: functions of the drivers do not call back into the job, a job is started once after it was created, and membership of a transaction is fixed before any job starts.
- block/mirror.c clears the cancelled flag of its own job; a job whose driver does so is not modelled.
- exec.c RAM: memory is not allocated, and Xen, file-backed memory, migration and the TLB are absent; whether there is host memory is a parameter.
- exec.c RCU: tables and lists are read and changed by one thread at a time.
- exec.c IOMMU translation and dispatch of accesses to devices.
- Dispatch.AddressSpaceDispatch.constructor: the number of sections times the nodes each can cost must not exceed the node numbers, as is the case for every page size and number of levels of the source.
- Dispatch.BuildDispatch: the flat view that supplies the sections is not part of this model; its sections are taken not to overlap.
- gdbstub.c commands: a packet is delivered and the parser is idle again, whatever the command does.
- cpus-common.c work queues and the CPU list: the set of CPUs is fixed.
