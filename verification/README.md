# Proofs about the QEMU core of FEMU and the pblk mapping of mStream

This project models the parts of the repository whose correctness is hardest to see from the code, and
proves what they promise.  It covers the exclusive-section protocol of the CPU loop, the permission
system and the graph operations of the block layer with the AioContext moves, the job state machine
with its transactions, image conversion and safe rebasing in qemu-img, the GDB packet layer, the sector
mapping of pblk, and the driver of QMP transactions.

`dafny verify dfyconfig.toml` checks the whole project with Dafny 4.11.

## How the code is modelled

- **Threads and coroutines** (`ExclusiveSection`, `ConvertCoroutines`) are state machines: a state holds the
  shared variables and one program counter per thread, a step is what runs undisturbed, and theorems
  quantify over all runs.  For the CPU protocol a step is a single memory access, lock operation or
  condition-variable operation; the memory barriers of the source justify sequential consistency.
- **The block graph** is given by maps from node and edge identifiers.  Check, set and abort of
  permissions are functions on the permissions of all edges (`PermissionUpdate`); what they guarantee is
  proved about these functions (`PermissionTheorems`, `PermissionSettling`, `PermissionLoosening`), about the
  operations built from them (`GraphOperations`, `GraphChanges`, `NodeReplacement`) and about whole runs
  (`GraphRuns`).  Acyclicity and compatibility of users hold for any drivers; that detaching never
  tightens needs drivers that derive less when they are asked for less.  The class `BlockLayer.Layer` has
  the loops and in-place updates of the source and refines the functions.  Drivers are parameters: what
  they derive for a child edge, and which permissions a driver with its own check accepts.  A permission
  mask is the set of its bits; that every user shares WRITE_UNCHANGED, which the source asserts, is part
  of the type of a grant.
- **Jobs, contexts, pblk lines, the GDB server and the images** are mutable: classes or arrays with
  methods that mirror the C functions, loops included.  Each transaction of jobs keeps a history of what
  happened to it (`JobHistory`), and `JobRuns` ranges over all runs of the job API, with the exact effect
  of every call on the jobs and transactions (`JobRuns.Effect`).  Assertions of the source are
  preconditions or assertions, so that every call shows them to hold.
- **Callbacks and I/O** are parameters that may be anything: return values of drivers, failures of reads
  and writes, answers of block-status queries (with the contract that a successful answer covers at
  least one byte and no more than was asked about).

## What the proofs found

- "No CPU has `running` set while a thread is exclusive" is false; `NaiveInvariantFails` is a run that breaks
  it, `RunningFlagMeansBackingOff` says exactly which CPUs may have the flag set.
- Replacing a force-shared node by one that is not leaves edges that share more than their parents
  derive.  A later detach then tightens, and the assertion in bdrv_replace_child fails:
  `ForceShareLossTightens` is such a graph.  `ReplaceNodeInvIff` gives the exact condition under which a
  replacement keeps what the assertion needs.
- A safe rebase to an image further down the same chain never ends when the overlay has an unallocated
  sector beyond the end of its old backing file: bdrv_is_allocated_above reports an empty range there
  and the loop adds it to its offset for ever.  `Blocked` is the exact condition (a cluster that reaches
  beyond the end escapes when an earlier difference causes it to be copied), `BlockedExample` a case of it.
- A job transaction can end split in one way only: the job whose finalisation was requested commits
  although another member's prepare failed and all others abort (`JobRuns.Run`, `SplitIff`);
  `SplitExample` is a run that ends so.
- When a job fails or is cancelled and another member of its transaction was never started,
  job_completed_txn_abort waits for that member for ever, because job_enter does nothing for it.
  `CompletedTxnAbort` ends exactly if all other members were started; `NeverStartedHangs` is a run of
  three calls that does not end.
- The number of valid sectors that pblk computes for a unit is right exactly for units that hold data and,
  if the data fill whole units, for padding units (`MapSecsIff`).
- The comment on is_allocated_sectors says that it returns true just when the first sector is not zero.
  The code also returns true for a run of zeroes that does not reach beyond the last alignment boundary;
  the model follows the code, and `IsAllocatedSectors` states the exact condition.

## Model

| member | source | states |
|---|---|---|
| `ExclusiveSection.RunKeepsInv` | femu-ocssd/cpus-common.c:173-301 | every state of every interleaving of start_exclusive, end_exclusive, cpu_exec_start and cpu_exec_end satisfies an invariant that ties pending_cpus, the flags, the lock and the program counters together |
| `ExclusiveSectionTheorems.MutualExclusion` | femu-ocssd/cpus-common.c:182-301 | while one thread is between the return of start_exclusive and end_exclusive, no CPU is in its run region, no other thread is in an exclusive section, and only that thread has in_exclusive_context set |
| `ExclusiveSectionTheorems.RunningFlagMeansBackingOff` | femu-ocssd/cpus-common.c:229-266 | in an exclusive section a set `running` flag belongs to a CPU that is on its way to clear it again: the exact set of such positions |
| `ExclusiveSectionTheorems.NaiveInvariantFails` | femu-ocssd/cpus-common.c:229-266 | a concrete run of two CPUs in which one is exclusive while the other has `running` set, so the simpler invariant is false |
| `ExclusiveSectionTheorems.PendingCountsWaiters` | femu-ocssd/cpus-common.c:187-212 | outside the counting loop pending_cpus is 0 with no has_waiter CPU, or 1 plus the number of has_waiter CPUs plus a decrement under way; it is never negative and at least 2 when it is decremented |
| `ExclusiveSectionTheorems.NoLostWakeup` | femu-ocssd/cpus-common.c:204-212 | a thread asleep on exclusive_cond still has a counted CPU to wait for or a signal on its way; one asleep on exclusive_resume still has an exclusive section to wait for or a broadcast on its way |
| `ExclusiveSectionTheorems.SignalWakesWaiter` | femu-ocssd/cpus-common.c:291-300 | the step of cpu_exec_end that brings the count to 1 wakes the thread waiting for it |
| `ExclusiveSectionTheorems.NoDeadlock` | femu-ocssd/cpus-common.c:173-301 | whenever a thread is in the middle of one of the operations, some such thread can take its next step |
| `ExclusiveSectionTheorems.WaitingIsBounded` | femu-ocssd/cpus-common.c:204-212 | while start_exclusive waits no CPU is added to those waited for, no step increases the work they have left, and every step of one of them decreases it |
| `BlockGraph.ShouldUpdateChild` | femu-ocssd/block.c:4487-4564 | the breadth-first search ends on every graph, cyclic or not, and returns true exactly when the edge may move and does not occur in the subtree of `to` |
| `BlockGraph.RedirectKeepsAcyclic` | femu-ocssd/block.c:4622-4628 | moving all edges that pass the test at once keeps an acyclic graph acyclic |
| `BlockGraph.RedirectInSubtreeMakesCycle` | femu-ocssd/block.c:4487-4523 | moving an edge out of the subtree of `to` closes a loop, whatever else is moved |
| `BlockGraph.RedirectAcyclicIff` | femu-ocssd/block.c:4487-4628 | the test is exact: the result is acyclic just when every moved edge passes it |
| `BlockPermissions.DefaultPermsMonotone` | femu-ocssd/block.c:2372-2517 | for every role and all flags, a parent that takes less and shares more derives permissions for its child that take less and share more |
| `BlockPermissions.StorageIsProtected` | femu-ocssd/block.c:2418-2495 | an active format driver never lets others resize its storage, nor write its metadata, and asks for what writing and growing it needs, whatever its parents do |
| `BlockPermissions.BackingIsReadOnly` | femu-ocssd/block.c:2382-2416 | a backing file is never written through its overlay, and others may write it exactly when the parents allow it or the image is inactive |
| `PermissionTheorems.CheckEdgeRemembers` | femu-ocssd/block.c:2267-2295 | a check changes only edges below the checked one and itself, and no edge loses the values it had before the update, even if it is visited several times |
| `PermissionTheorems.CheckThenAbortRestores` | femu-ocssd/block.c:2267-2322 | on any acyclic graph without pending backups, a failed or successful bdrv_child_check_perm followed by the abort restores every edge and leaves no backup |
| `PermissionTheorems.CheckUpdateThenAbortRestores` | femu-ocssd/block.c:2091-2107 | the same for bdrv_check_update_perm and bdrv_abort_perm_update on a node |
| `PermissionSettling.CheckEdgeSettles` | femu-ocssd/block.c:1984-2082 | after a successful check every edge below carries exactly what its parent derives from the permissions the parent has now |
| `PermissionSettling.SetNodeKeeps` | femu-ocssd/block.c:2109-2138 | on a node that is settled in this sense bdrv_set_perm changes no permission and drops exactly the backups below the node |
| `PermissionSettling.CheckThenSetCommits` | femu-ocssd/block.c:2267-2311 | a successful check followed by set leaves the values the check installed on every edge, with all backups cleared |
| `PermissionSettling.CheckEdgePeaceful` | femu-ocssd/block.c:2204-2295 | a successful check keeps any two users of any node compatible |
| `PermissionLoosening.CheckNodeLoosens` | femu-ocssd/block.c:1996-2006 | if every edge covers what its parent derives, a check for no more than the node has reports no tightening anywhere in the recursion and loosens every edge it changes |
| `PermissionLoosening.CheckEdgeLoosens` | femu-ocssd/block.c:2267-2295 | the same for one edge, with users to be ignored |
| `GraphOperations.TrySetPermSound` | femu-ocssd/block.c:2324-2353 | for any driver and any request, bdrv_child_try_set_perm keeps any two users of any node compatible; a failed check changes nothing; a successful one gives the edge its permissions and touches nothing outside the subtree |
| `GraphOperations.TrySetPermInvIff` | femu-ocssd/block.c:2324-2353 | with monotone drivers, a granted request keeps what a later detach relies on exactly when the owner of the edge still gets what it derives |
| `GraphOperations.TrySetPermKeepsInv` | femu-ocssd/block.c:2324-2353 | the sufficient direction, for requests that fail as well |
| `GraphOperations.RootServed` | femu-ocssd/block.c:2324-2353 | an edge that belongs to no node may ask for anything |
| `GraphOperations.RefreshServed` | femu-ocssd/block.c:2355-2365 | bdrv_child_refresh_perms asks for what the invariant needs |
| `GraphOperations.RootAttachSound` | femu-ocssd/block.c:2672-2733 | for any driver and any request, bdrv_root_attach_child attaches exactly when the check passes and the contexts match, keeps users compatible, and changes nothing when it fails |
| `GraphOperations.RootAttachKeepsInv` | femu-ocssd/block.c:2672-2733 | with monotone drivers it also keeps what a later detach relies on, without further conditions |
| `GraphChanges.OwnEdgeAcyclicIff` | femu-ocssd/block.c:2769-2770 | the new child edge keeps the graph acyclic exactly when the parent is not in the subtree of the child |
| `GraphChanges.AttachChildSound` | femu-ocssd/block.c:2746-2771 | for any driver, bdrv_attach_child keeps the graph acyclic and users compatible if the parent is not in the subtree of the child, and changes nothing when it fails |
| `GraphChanges.AttachChildSoundIff` | femu-ocssd/block.c:2746-2771 | for an edge that is attached that condition is exact |
| `GraphChanges.AttachChildKeepsInv` | femu-ocssd/block.c:2746-2771 | with monotone drivers it also keeps what a later detach relies on |
| `GraphChanges.RecheckSound` | femu-ocssd/block.c:2638-2654 | for any driver, the re-check of the old node in bdrv_replace_child keeps users compatible and leaves no backup, whatever it reports |
| `GraphChanges.RecheckKeepsInv` | femu-ocssd/block.c:2638-2654 | the re-check of the old node in bdrv_replace_child never tightens, so its failure may be ignored; either way the invariant holds again and no edge takes more or shares less |
| `GraphChanges.DetachSound` | femu-ocssd/block.c:2773-2781 | for any driver, detaching removes the edge and keeps users compatible, also past the assertion in bdrv_replace_child |
| `GraphChanges.DetachKeepsInv` | femu-ocssd/block.c:2773-2781 | with monotone drivers and covered edges detaching only loosens the other edges |
| `NodeReplacement.ReplaceNodeEffect` | femu-ocssd/block.c:4573-4637 | bdrv_replace_node_common either changes nothing or moves exactly the movable parents with the grants they had; any two users of any node are compatible afterwards, also when `from` lies below `to` |
| `NodeReplacement.ReplaceNodeInvIff` | femu-ocssd/block.c:4591-4631 | a successful replacement keeps the invariant exactly when the share masks of the moved child edges are no larger than what their parents derive for the new node |
| `NodeReplacement.ReplaceNodeKeepsInv` | femu-ocssd/block.c:4573-4637 | which holds unless a force-shared node is replaced by one that is not |
| `GraphRuns.EveryRunIsSafe` | femu-ocssd/block.c:1984-2781 | along every run of permission changes, attaches, detaches and replacements from an unconnected graph, whatever the drivers derive and whatever is asked for: acyclic, any two users of a node compatible, no pending backup |
| `GraphRuns.ServedRunNeverTightens` | femu-ocssd/block.c:2638-2650 | along runs with monotone drivers whose owners get what they derive and whose replacements keep force-share, moreover, detaching any edge tightens nothing, which is the assertion in bdrv_replace_child |
| `GraphRuns.ServedRunKeepsInv` | femu-ocssd/block.c:1984-2781 | every state of such a run meets the full invariant |
| `GraphRuns.DefaultsAreMonotone` | femu-ocssd/block.c:2497-2517 | drivers that use bdrv_default_perms meet the monotonicity the runs assume |
| `GraphRuns.ForceShareLossTightens` | femu-ocssd/block.c:2638-2650 | a concrete graph in which replacing a force-shared, read-only node makes a later detach tighten, so that the assertion in bdrv_replace_child fails |
| `BlockLayer.Layer.GetCumulativePerm` | femu-ocssd/block.c:2140-2154 | the loop over the parents computes the union of what they take and the intersection of what they share |
| `BlockLayer.Layer.CheckPerm` | femu-ocssd/block.c:1984-2082 | the recursion in place refines the function CheckNode: result, tightening flag and all edge permissions |
| `BlockLayer.Layer.CheckUpdatePerm` | femu-ocssd/block.c:2204-2261 | refines CheckUpdate: the first conflicting user ends it, otherwise the joint permissions are checked |
| `BlockLayer.Layer.ChildCheckPerm` | femu-ocssd/block.c:2267-2297 | refines CheckEdge, with the backup taken at the first change only |
| `BlockLayer.Layer.SetPerm` | femu-ocssd/block.c:2109-2138 | refines SetNode |
| `BlockLayer.Layer.ChildSetPerm` | femu-ocssd/block.c:2299-2311 | refines SetEdge |
| `BlockLayer.Layer.AbortPermUpdate` | femu-ocssd/block.c:2091-2107 | refines AbortNode |
| `BlockLayer.Layer.ChildAbortPermUpdate` | femu-ocssd/block.c:2313-2322 | refines AbortEdge |
| `BlockLayer.Layer.ChildTrySetPerm` | femu-ocssd/block.c:2324-2353 | refines TrySetPerm, with the error hidden from the caller exactly when nothing was tightened |
| `BlockLayer.Layer.RootAttachChild` | femu-ocssd/block.c:2672-2733 | refines RootAttach |
| `BlockLayer.Layer.AttachChildEdge` | femu-ocssd/block.c:2746-2771 | refines AttachChild |
| `BlockLayer.Layer.DetachChild` | femu-ocssd/block.c:2617-2663 | refines Detach; the assertion that nothing is tightened holds |
| `BlockLayer.Layer.ReplaceNodeCommon` | femu-ocssd/block.c:4573-4637 | refines ReplaceNode |
| `BlockLayer.Layer.CollectParents` | femu-ocssd/block.c:4591-4609 | the first loop: which parents move, what they need together, and the two errors |
| `BlockLayer.Layer.MoveParents` | femu-ocssd/block.c:4622-4628 | the second loop redirects exactly the edges of the list |
| `AioContexts.FrontierCloses` | femu-ocssd/block.c:6453-6510 | when the recursion has returned to its start, every node connected to a finished node is finished |
| `AioContexts.AioLayer.CanSet` | femu-ocssd/block.c:6549-6570 | the query ends because the ignore list grows, even if a node is entered again before it is finished; it is refused only if some parent in the component refuses |
| `AioContexts.AioLayer.ChildCanSet` | femu-ocssd/block.c:6537-6545 | the same for a child edge or an edge of a job |
| `AioContexts.AioLayer.ParentCanSet` | femu-ocssd/block.c:6512-6535 | the same for a parent edge, by kind of parent |
| `AioContexts.AioLayer.JobCanSet` | femu-ocssd/blockjob.c:133-146 | the same for all edges of a block job |
| `AioContexts.AioLayer.SetIgnore` | femu-ocssd/block.c:6453-6510 | the move ends, moves exactly the nodes it finishes, and never meets a parent without set_aio_ctx |
| `AioContexts.AioLayer.JobSet` | femu-ocssd/blockjob.c:148-164 | the same for all edges of a block job |
| `AioContexts.AioLayer.TrySet` | femu-ocssd/block.c:6572-6591 | if connected nodes share one context: fails without any change exactly when a parent of the component refuses, and otherwise moves the whole component, the block backends on it and the jobs with an edge to it, without the ignored edge, and nothing else |
| `AioContexts.UsersAtEnd` | femu-ocssd/block.c:6453-6510 | when the move has returned, exactly the backends and jobs with an edge that is not ignored into the component have moved |
| `AioContexts.MoveKeepsUniform` | femu-ocssd/block.c:6572-6591 | moving a whole component keeps one context per component, for any set of ignored edges |
| `AioContexts.UniformComponent` | femu-ocssd/block.c:6572-6591 | with one context between adjacent nodes there is one per component, which is what TrySet relies on |
| `AioContexts.AioLayer.TrySetUniform` | femu-ocssd/block.c:6572-6597 | so the call keeps the graph uniform whether it succeeds or not |
| `JobRecords.StagesAdvance` | femu-ocssd/job.c:38-51 | along any history of transitions in JobSTT a job never returns to an earlier stage |
| `JobRecords.AbortingIsFinal` | femu-ocssd/job.c:38-51 | an aborting job can only be concluded and dismissed |
| `JobRecords.OnlyDismissedReachNull` | femu-ocssd/job.c:38-51 | NULL is reached only from CREATED or CONCLUDED and never left |
| `JobRecords.CancelAsync` | femu-ocssd/job.c:713-727 | cancelling keeps all job invariants; the pause by the user and a bad I/O status end, and progress is untouched |
| `JobRuns.Run` | femu-ocssd/job.c:305-948 | for every sequence of calls of the job API and of steps of the coroutines, with any answers of the drivers: in each state between calls every transaction is undecided, or every job that belonged to it was committed or aborted exactly once, after all prepares - all aborted if one ended with an error or cancelled, all committed if none did and every prepare returned 0, and otherwise only the job that was being finalised committed, if its own prepare did not fail; every job meets its invariant (the pause count, one commit or abort, one clean and one callback, references), every call changes exactly the jobs and transactions its rules name, and a run stops exactly at a call that waits for a job that was never started |
| `JobRuns.NeverStartedHangs` | femu-ocssd/job.c:729-776 | a concrete run in which a cancel never ends: the other member of the transaction was not started |
| `JobRuns.SplitExample` | femu-ocssd/job.c:792-804 | a concrete run after which exactly one of two members was committed and exactly the other aborted |
| `JobHistory.SplitIff` | femu-ocssd/job.c:729-804 | a transaction has both commits and aborts exactly when no job failed and a prepare failed but not that of the job being finalised |
| `JobHistory.FailureOutcome` | femu-ocssd/job.c:729-776 | the events of job_completed_txn_abort after a failure give the outcome: everybody aborts |
| `JobHistory.CommitOutcome` | femu-ocssd/job.c:792-804 | the events of job_do_finalize without a failing prepare: everybody commits |
| `JobHistory.PrepareOutcome` | femu-ocssd/job.c:792-804 | the events of job_do_finalize with a failing prepare: everybody aborts but the job being finalised, if the failing one is another |
| `JobLayer.Layer.Transition` | femu-ocssd/job.c:179-192 | the assertion on JobSTT as precondition, shown at every call |
| `JobLayer.Layer.UpdateRc` | femu-ocssd/job.c:645-656 | a cancelled or failed job becomes ABORTING with a non-zero return value |
| `JobLayer.Layer.Callbacks` | femu-ocssd/job.c:658-695 | exactly one of commit and abort, by the return value, one clean and one completion callback |
| `JobLayer.Layer.FinalizeSingle` | femu-ocssd/job.c:681-711 | the job leaves its transaction as committed or aborted and is concluded; no other job changes; a job somebody holds is not freed |
| `JobLayer.Layer.DoDismiss` | femu-ocssd/job.c:605-616 | only a concluded job, out of any transaction, is dismissed and freed |
| `JobLayer.Layer.CompletedTxnAbort` | femu-ocssd/job.c:729-776 | ends exactly if all other members were started; then all are aborted, except a job under finalisation that itself neither failed nor was cancelled |
| `JobLayer.Layer.FinishSync` | femu-ocssd/job.c:997-1018 | the cancelled jobs awaited, and any others that finish meanwhile, reach ABORTING through allowed transitions, with the return value of their run callback or that of a cancelled job; no other job changes |
| `JobLayer.Layer.PrepareMembers` | femu-ocssd/job.c:778-785 | members are prepared up to the first failure |
| `JobLayer.Layer.DoFinalize` | femu-ocssd/job.c:792-804 | all commit if every member can be prepared; otherwise all abort but the job itself if it was another one that failed |
| `JobLayer.Layer.CompletedTxnSuccess` | femu-ocssd/job.c:830-854 | the job waits exactly as long as another member runs; otherwise all become PENDING, and are finalised exactly if none needs the user for it; the assertion on the return values holds |
| `JobLayer.Layer.JobCompleted` | femu-ocssd/job.c:856-868 | a failing job aborts its whole transaction, which ends exactly if all other members were started; a successful one never does |
| `JobLayer.Layer.Exit` | femu-ocssd/job.c:870-896 | completion from the bottom half, under its own reference, with the same outcome |
| `JobLayer.Layer.Cancel` | femu-ocssd/job.c:926-940 | a job that was not started or whose coroutine has ended takes its whole transaction down, which ends exactly if all other members were started; a running one is only marked; a concluded one is dismissed |
| `JobLayer.Layer.UserCancel` | femu-ocssd/job.c:942-948 | refused exactly in the states the verb table excludes |
| `JobLayer.Layer.Finalize` | femu-ocssd/job.c:806-813 | accepted exactly for PENDING jobs, and then the whole transaction ends |
| `JobLayer.Layer.Dismiss` | femu-ocssd/job.c:618-629 | accepted exactly for CONCLUDED jobs |
| `JobLayer.Layer.Create` | femu-ocssd/job.c:305-365 | a new job in a transaction of its own or one that can still be joined |
| `JobLayer.Layer.EarlyFail` | femu-ocssd/job.c:631-635 | a job that was never started goes without any callback |
| `JobLayer.Layer.Start` | femu-ocssd/job.c:914-924 | the assertions of job_start follow from CREATED |
| `JobLayer.Layer.PausePoint` | femu-ocssd/job.c:484-505 | pauses exactly when asked to and not cancelled |
| `JobLayer.Layer.Wake` | femu-ocssd/job.c:505-508 | returns to the status before the pause |
| `JobLayer.Layer.BecomeReady` | femu-ocssd/job.c:824-828 | an allowed transition from RUNNING |
| `JobLayer.Layer.RunReturns` | femu-ocssd/job.c:902-912 | the return value is set and the job waits for its bottom half; a driver may have cleared the cancel flag, as mirror does |
| `JobLayer.Layer.Ref` | femu-ocssd/job.c:367-370 | one more holder |
| `JobLayer.Layer.Unref` | femu-ocssd/job.c:372-389 | a job is freed only in NULL and out of any transaction |
| `JobLayer.Layer.UserPause` | femu-ocssd/job.c:570-581 | the pause count stays (not started) + (paused by user) + (drained sections) |
| `JobLayer.Layer.UserResume` | femu-ocssd/job.c:588-603 | the assertions of job_resume and block_job_iostatus_reset hold |
| `JobLayer.Layer.DrainedBegin` | femu-ocssd/blockjob.c:99-103 | one more drained section is counted |
| `JobLayer.Layer.DrainedEnd` | femu-ocssd/blockjob.c:127-131 | the assertion in job_resume holds |
| `JobLayer.Layer.StopOnError` | femu-ocssd/blockjob.c:479-517 | a bad I/O status implies a pause by the user |
| `ConvertCoroutines.RunKeepsInv` | femu-ocssd/qemu-img.c:1977-2094 | every state of every interleaving of any number of convert coroutines satisfies the invariant below |
| `ConvertCoroutines.ClaimsDisjoint` | femu-ocssd/qemu-img.c:2001-2021 | no two coroutines ever work on the same sector |
| `ConvertCoroutines.ClaimedOnce` | femu-ocssd/qemu-img.c:2001-2021 | claims follow each other from sector 0 on: every sector handed out was handed out in exactly one step |
| `ConvertCoroutines.WritesArePrefix` | femu-ocssd/qemu-img.c:2043-2072 | with ordered writes and no error the target is the source up to wr_offs and untouched beyond the write being completed there |
| `ConvertCoroutines.SleeperHasPredecessor` | femu-ocssd/qemu-img.c:2043-2050 | a sleeping coroutine waits for a claim that is still open, with or without errors |
| `ConvertCoroutines.PredecessorWakes` | femu-ocssd/qemu-img.c:2069-2083 | completing that claim wakes it |
| `ConvertCoroutines.NoDeadlock` | femu-ocssd/qemu-img.c:1977-2094 | as long as a coroutine has not exited, some coroutine can take a step |
| `ConvertCoroutines.RunsAreBounded` | femu-ocssd/qemu-img.c:1977-2094 | every run ends: an explicit bound on its length |
| `ConvertCoroutines.SuccessMeansEqual` | femu-ocssd/qemu-img.c:2087-2093 | a conversion that reports success has copied every sector, ordered or not |
| `ConvertWrite.IsAllocatedSectors` | femu-ocssd/qemu-img.c:1203-1239 | a hole is all zeroes; when exactly a hole is reported; the end is aligned unless the buffer ends; no run of zeroes as long as the alignment is reported as used; at least one sector of progress |
| `ConvertWrite.IsAllocatedSectorsMin` | femu-ocssd/qemu-img.c:1246-1283 | a used result contains no aligned hole of min sectors or more, and is followed by such a hole, by an aligned hole up to the end, or by nothing |
| `ConvertWrite.ChooseAct` | femu-ocssd/qemu-img.c:1888-1936 | what is written, zeroed or skipped next, and why skipping is safe |
| `ConvertWrite.CoWrite` | femu-ocssd/qemu-img.c:1882-1944 | on success the target reads as the request wants it on the whole range, for every alignment and min_sparse; it fails only where a request to the target fails, and then each sector is old or new; outside nothing changes |
| `ConvertWrite.Iteration.SelectPart` | femu-ocssd/qemu-img.c:1710-1720 | the source image a sector lies in; the assertion holds |
| `ConvertWrite.Iteration.QueryStatus` | femu-ocssd/qemu-img.c:1756-1783 | the salvage loop ends with an answer of the image for the range or a part of it; without salvage it fails exactly if the query does |
| `ConvertWrite.Iteration.Refresh` | femu-ocssd/qemu-img.c:1743-1804 | the new status and the range it holds for are those the image reports; it fails exactly if the query does and salvage is off, and then changes nothing |
| `ConvertWrite.Iteration.IterationSectors` | femu-ocssd/qemu-img.c:1722-1826 | a request ends exactly where the reported range, the backing file of the target or the buffer ends; compressed ones consist of whole clusters up to the end of the source; the status is that of the image the sector lies in; it fails exactly if a new query is due, salvage is off and the image does not answer |
| `Rebase.AllocatedAbove` | femu-ocssd/block/io.c:2357-2455 | the range reported unallocated reads the same from the base; the range is empty exactly beyond the end of the topmost image |
| `Rebase.CompareBuffers` | femu-ocssd/qemu-img.c:1292-1312 | the longest prefix with one comparison result |
| `Rebase.CopyDifferences` | femu-ocssd/qemu-img.c:3836-3859 | the inner loop settles every sector and changes nothing that is visible; it ends early only where a write fails |
| `Rebase.CopyChunk` | femu-ocssd/qemu-img.c:3805-3859 | one round: at least one sector of progress unless a read or a write fails |
| `Rebase.SkipUnchanged` | femu-ocssd/qemu-img.c:3785-3800 | a range skipped because nothing above the new backing file holds it reads the same over the old and the new chain; an empty range means that Blocked holds |
| `Rebase.SafeRebase` | femu-ocssd/qemu-img.c:3768-3862 | at every point the overlay reads the same over the old chain; when done it reads the same over the new one and only clusters with a difference were copied; it fails only if a request fails, and otherwise stands still if and only if Blocked holds, and is done if and only if it does not |
| `Rebase.StuckIsBlocked` | femu-ocssd/qemu-img.c:3785-3800 | standing still at an unallocated sector means the case could be told beforehand |
| `Rebase.DoneIsNotBlocked` | femu-ocssd/qemu-img.c:3785-3800 | and in that case the loop is never done |
| `Rebase.BlockedExample` | femu-ocssd/qemu-img.c:3785-3800 | a concrete overlay and chain of that kind |
| `Rebase.BlockedExampleSticks` | femu-ocssd/qemu-img.c:3785-3800 | the loop, with no request failing, comes to a standstill on it |
| `GdbPackets.ToHex` | femu-ocssd/gdbstub.c:575-581 | the digit that fromhex reads back |
| `GdbPackets.MemToX` | femu-ocssd/gdbstub.c:693-710 | the escaping, byte by byte |
| `GdbPackets.PutPacketBinary` | femu-ocssd/gdbstub.c:640-665 | the framing with its checksum |
| `GdbPackets.DecoderFollowsGrammar` | femu-ocssd/gdbstub.c:2899-3012 | for every byte stream whatsoever an idle decoder accepts and refuses exactly the packets of a recursive token grammar of escapes, run lengths and checksums, with its recoveries |
| `GdbPackets.RoundTrip` | femu-ocssd/gdbstub.c:640-710 | an escaped and framed payload is received and acknowledged exactly when it has at most 4095 bytes, and otherwise dropped without an answer |
| `GdbPackets.StepBounded` | femu-ocssd/gdbstub.c:2915-2985 | line_buf_index stays within the buffer, whatever is received |
| `GdbPackets.GdbServer.ReadByte` | femu-ocssd/gdbstub.c:2869-3012 | the method on the buffer refines the decoder step; acknowledgements of the last packet and a running machine come first |
| `GdbPackets.GdbServer.Decode` | femu-ocssd/gdbstub.c:2899-3012 | the switch on line_buf refines the decoder step, with the replies it sends |
| `PblkMap.MapSecsIff` | mstream-pblk/pblk-map.c:99-103 | map_secs counts the data of a unit exactly for units that hold data, and for padding units only if the data fill whole units |
| `PblkMap.UnitDone` | mstream-pblk/pblk-map.c:21-88 | a unit maps its sectors to fresh, consecutive, distinct addresses and leaves the earlier ones alone |
| `PblkMap.Pblk.AllocPage` | mstream-pblk/pblk-core.c:570-604 | the search in map_bitmap finds the first free unit: contiguous, unmapped, before the closing metadata; bits already set and addresses out of bounds, of which the source warns, cannot occur |
| `PblkMap.Pblk.FillUnit` | mstream-pblk/pblk-map.c:35-72 | the loop fills ppa_list, meta_list, lba_list and the write contexts and counts the valid sectors |
| `PblkMap.Pblk.MapPageData` | mstream-pblk/pblk-map.c:21-88 | one unit in the data line; the line is replaced by the next one exactly when that fills it; one unit of room less |
| `PblkMap.Pblk.ReplaceData` | mstream-pblk/pblk-core.c:1463-1504 | the line at the head of the queue becomes the data line, fully erased; no mapping changes |
| `PblkMap.Pblk.EraseLine` | mstream-pblk/pblk-core.c:1488-1499 | erasing the rest of a line conserves left_eblks plus erased blocks |
| `PblkMap.Pblk.MapRq` | mstream-pblk/pblk-map.c:90-104 | the rest of the request is mapped; waiting lines are not touched |
| `PblkMap.Pblk.MapEraseRq` | mstream-pblk/pblk-map.c:107-185 | every sector is mapped once, to a distinct address free before; meta_list, lba_list and contexts agree, padding is empty; the valid count grows by valid_secs in total; at most one new block is picked, of the line that was next in turn; left_eblks plus the erase bitmap is conserved |
| `PblkMap.Pblk.EraseBadBlock` | mstream-pblk/pblk-map.c:159-184 | a block bad in the data line and not yet erased in the next, if there is one |
| `QmpTransaction.Run` | femu-ocssd/blockdev.c:2339-2412 | all prepares and then all commits in order, or on the first failing prepare the aborts of all attempted actions; clean once for each attempted action: the exact sequence of calls and the resulting world |
| `QmpTransaction.PrepareAll` | femu-ocssd/blockdev.c:2363-2389 | prepares in order up to and including the first that fails |
| `QmpTransaction.AbortAll` | femu-ocssd/blockdev.c:2399-2405 | aborts the attempted actions, the last first |
| `QmpTransaction.AbortsReversed` | femu-ocssd/blockdev.c:2399-2405 | aborts run in the reverse order |
| `QmpTransaction.AbortsAre` | femu-ocssd/blockdev.c:2399-2405 | exactly the attempted actions with an abort callback are aborted |
| `QmpTransaction.CommitsAscend` | femu-ocssd/blockdev.c:2391-2395 | commits run in the order of the actions, each once |
| `QmpTransaction.CommitsAre` | femu-ocssd/blockdev.c:2391-2395 | exactly the actions with a commit callback are committed |
| `QmpTransaction.CleansAscend` | femu-ocssd/blockdev.c:2406-2412 | no action is cleaned twice |
| `QmpTransaction.CleansAre` | femu-ocssd/blockdev.c:2406-2412 | exactly the attempted actions with a clean callback are cleaned |
| `QmpTransaction.FailureRestores` | femu-ocssd/blockdev.c:1210-1230 | if each abort undoes its own possibly failed prepare, a failed transaction leaves the world as it was |

## Left out

- CPUs that come and go: the set of CPUs is fixed during a run, and start_exclusive is called from outside cpu_exec, as its comment demands.
- Kicking CPUs, queued work, plugins and tracing in the CPU loop: they do not touch the protocol's variables.
- Reopening images: every check is made without a reopen queue; bdrv_reopen_multiple and bdrv_drop_intermediate do not roll back in the same way.
- Nodes that have children but no driver, which exist only while a node is being closed, and drivers with their own permission check that have children: such a driver's children are never visited by the check.
- Draining, reference counts of nodes, node names, inherits_from and options in block.c.
- AioContexts.AioLayer.TrySet: graphs in which connected nodes already have different contexts are not covered.
- JobLayer.Layer.FinishSync: the event loop that runs while a job is awaited is one step in which the cancelled jobs run to their end; other events in between are not interleaved, and no driver clears the cancel flag meanwhile, as mirror does when it is READY (block/mirror.c:924 and 1059); outside an abort RunReturns covers that.
- JobLayer.Layer.Create: a transaction can be joined only before one of its members is PENDING or has ended; reference counts of transactions and the list order of members are not modelled (members are taken in any order).
- Job timers, sleeping, speed limits, progress and events; job_complete, which only calls a driver callback in READY.
- Copy offloading in convert: with it a failed copy falls back to the read and write that are modelled.
- ConvertCoroutines.WritesArePrefix: a write is one step, so the order of the single requests inside convert_co_write is not visible; ConvertWrite.CoWrite covers what they do together.
- ConvertWrite.IsAllocatedSectors: the alignment is any positive number and the mask is written as a remainder, which agrees for the powers of two the program uses.
- Comparing images (img_compare), committing, resizing, and the command line of qemu-img.
- Rebase.SafeRebase: changing the backing file name in the image header afterwards is left to the image format.
- GdbPackets.GdbServer.ReadByte: the checksum counter is unbounded, and what gdb_handle_packet does with a packet is a parameter.
- GdbPackets.PutPacketBinary: waiting for the acknowledgement in user-mode emulation.
- PblkMap.Pblk.AllocPage: that the unmapped sectors of a new line form whole write units is taken from the geometry; pblk_line_init_bb is not modelled.
- PblkMap.Pblk.ReplaceData: failures to set up the metadata or the bad blocks of a new line, and running out of lines while writes are stopped, are not modelled; the lines that follow are given beforehand.
- PblkMap.Pblk.MapEraseRq: the request fits into the lines at hand, and erase_ppa is empty when it is called.
- pblk_down_rq, the semaphores and locks of pblk, and invalidation bitmaps.
- The individual actions of QMP transactions: an action is any quadruple of callbacks.
- thunk.c, replication.c, iothread.c, the device models, the disassembler, operating-system glue and user interfaces.
