# BEAU hypervisor: a Dafny model of its hard cores

BEAU is a type-1 hypervisor for ARM64. This project models the parts of it whose correctness is not
visible from one function and proves what they promise:

- **Page tables** (`Descriptors`, `TableTree`, `RangeEffects`, `PagePool`, `PageTables`). The four-level
  walker adds, modifies, splits and deletes mappings in place, with table pages taken from a bitmap pool
  and given back at once or in a batch. The reference is a flat map from page to frame and attributes;
  every operation refines an operation on that map. A ghost tag per table page (level, base, parent)
  makes the tree invariant local.
- **Real-time policies** (`CbsServers`, `CbsQueue`, `CbsPriority`, `CbsRunqueue`, `BfpAdmission`,
  `BfpAccounting`, `BfpRunqueue`, `RtdsQueue`, `RtdsPriority`, `RtdsRunqueue`, `Arinc653`, over
  `OrderedQueues`, `EdfWalk`, `PolicyThreads`, `Arithmetic`). The Constant Bandwidth Server bound over
  every run, response-time admission, catch-up accounting in constant time against the period-by-period
  form, selection over every run of a policy's entry points with the scan for priority requests that
  `schedule` makes first, and fixed frames that do not depend on when the policy was asked.
- **Scheduler gates** (`SchedulerGates`, `Scheduler`, `EventWait`). Every section under a scheduler lock
  is one step of one step system: sleep, wake, switch, freeze and thaw by epoch, quiesce requests and
  acknowledgements by generation. `Scheduler` is the code, one method per section, proved equal to the
  steps. Callers that look at several threads one after another are proved with the other pCPUs running
  in between.
- **Suspend transaction** (`PmTransaction`, `PmHooks`, `PowerManagement`). The boot pCPU drives the state
  machine; between any two of its locked sections the other pCPUs run (`Yield`), and callbacks, lookups
  and timeouts are asked of the outside (`Ask`). Both are arbitrary, so each statement is about every run.
- **Cross-CPU calls** (`SmpCall`). One load or store per step, any interleaving of caller and handlers.
- **VM watchdog** (`VmWatchdog`). Heartbeat ages across suspend and resume of one VM or of the system, and
  the recovery state machine. A poll is several locked sections, each a step of its own; the watchdog thread
  remembers in between what it saw, while kicks, resets and suspends of any VM take place.

`dafny verify dfyconfig.toml` verifies all of it.

## Where the code does not do what it is written to do

Each of these is kept as the code has it, with an input on which the promise fails and the exact
condition under which it holds.

- A range operation that cuts a block whose access flag is clear sets the flag on the pages of that block
  outside its range, because a split writes its pieces through the hook that sets it. It changes exactly its
  range if and only if the blocks that the two ends of the range fall into have the flag:
  `PageTables.PageTable.ModifyOrDeleteMap`, `RangeEffects.ExactlyWhen`; `PageTables.ClearedFlagComesBack` is
  a table on which it does not. The default-to-normal branch of that hook cannot be taken
  (`Descriptors.LeafAttrOnlyAddsAccessFlag`).
- Deferred retirement marks a page in the first bitmap word whatever its number, so a batch frees the
  right pages if and only if none of them lies beyond the first word: `PageTables.PageTable.FreeRetired`,
  `PageTables.SecondWordPageIsNotFreed`.
- The CBS wake rule is said to keep the density of a server at most Q/T. It does not for a server that
  slept with nothing left and wakes after its deadline off that deadline's grid: `CbsServers.WakeDensity`,
  `CbsServers.DenseWake`. The long-run bandwidth bound holds all the same.
- `sched_cbs_prioritize` refreshes a queued current thread without moving it, which leaves the queue out of
  order if and only if the new deadline passes the next one. A further request in the same scan is then put in
  the wrong place if and only if it is squeezed in ahead of the displaced thread, and `pick_next` may pass over an
  earlier deadline: `CbsRunqueue.Cbs.Prioritize`, `CbsRunqueue.WrongChoice`. The choice is the earliest whenever
  no request, save the last before it, is for a current thread that is queued and due:
  `CbsPriority.HarmlessIsSmooth`. RTDS refreshes in the same way, but all its servers on a pCPU have one period on
  one grid, so its choice is the earliest whatever the scan did: `RtdsRunqueue.Rtds.Run`.
- `thaw_thread` replays a wake without looking at the quiesce gate. The promise that a matching acknowledgement
  means off the pCPU survives a thaw, in all that can follow, if and only if it does not wake an acknowledged
  thread: `SchedulerGates.ThawKeepsQuiesce`.
- A cross-CPU call that times out while a handler is past its last check lets that handler clear the
  bit of the next call, which then returns 0 without having been run. Later calls can be trusted if and only
  if no handler is: `SmpCall.ReleaseAfterTimeout`, `SmpCall.StaleClear`, `SmpCall.StrandedReached`.
- The system-wide resume of the watchdog is refused if and only if some entry is no longer held by its epoch,
  which a VM reset in between brings about, and then stays refused whatever follows:
  `VmWatchdog.Watchdog.ResumeAll`, `VmWatchdog.ResetWhileHeld`, `VmWatchdog.Watchdog.Run`.
- A heartbeat age at or past the timeout comes back expired from suspend only once the clock itself is
  past the timeout: `VmWatchdog.AgeRoundTrip`.

One promise rests on the configuration: two vCPUs of one VM on one pCPU would share a quiesce slot and its
acknowledgement. The device tree and the assignment of vCPUs rule that out
(sdk/bsp/arm64/platform_dts.c:1360-1368), so `OnePerSlot` holds; `SchedulerGates.SoundWhenSlotsUnique` says that
the acknowledgement promise holds in every run if and only if it does.

## Model

| member | source | states |
|---|---|---|
| `Descriptors.LeafAttrOnlyAddsAccessFlag` | arch/arm64/mmu.c:141-165 | the leaf hook changes attribute bits only by setting the access flag; its default-memory-type branch is dead |
| `Descriptors.LeafWordFields` | arch/arm64/mmu.c:141-165 | the word built for a leaf has the frame, the type and the attributes it was built from, whatever type bits the caller passed along |
| `Descriptors.ModifyStaysInField` | core/mmu.c:379-406 | a modify keeps frame and type of every descriptor word if and only if its masks avoid those fields, and then masks the attributes alone |
| `TableTree.WriteLeaf` | core/mmu.c:379-406 | writing one leaf entry changes the translation of exactly the pages that entry covers and keeps the tree invariant |
| `TableTree.LinkEmpty` | core/mmu.c:691-694 | hanging an empty table into an absent entry changes no translation |
| `TableTree.LinkSplit` | core/mmu.c:348-377 | replacing a block by the table of its pieces moves no page and changes attributes by the access flag only |
| `TableTree.OneLeafPerBlock` | core/mmu.c:860-897 | all pages of a leaf's block translate through that one leaf |
| `TableTree.Unlink` | core/mmu.c:324-346 | taking an all-absent table out of its parent changes no translation and leaves the rest a tree |
| `TableTree.OneParent` | core/mmu.c:658-833 | every table but the root is pointed at by exactly one entry |
| `TableTree.OneTablePerLevel` | core/mmu.c:658-833 | a page is covered by at most one table of each level |
| `TableTree.TablesAreReachable` | core/mmu.c:658-833 | the tagged pages are exactly the tables reachable from the root |
| `RangeEffects.OutsideOnlyFlag` | core/mmu.c:445-568 | a page outside the range keeps its translation, or lies in a block the range cuts and gains the access flag |
| `RangeEffects.ExactlyWhen` | core/mmu.c:445-568 | the operation does exactly what it was asked if and only if the blocks its two ends cut have the access flag |
| `RangeEffects.OccupiedMaps` | core/mmu.c:324-346 | in a tree without empty tables every table maps some page |
| `PagePool.FindClear` | core/mmu.c:70-112 | the search from the hint finds a clear bit whenever there is one, wrapping once around the words |
| `PagePool.SweepBatch` | core/mmu.c:282-311 | the sweep clears the mark of exactly the page each retired bit names, and fails on a page already free |
| `PageTables.PageTable.constructor` | core/mmu.c:51-68 | an empty map with one used page, the root |
| `PageTables.PageTable.AllocPage` | core/mmu.c:70-112 | the lowest clear page of its word, the word of the hint unless that is full, is marked used and sanitised, and nothing else changes; it fails only when no page is free |
| `PageTables.PageTable.FreeOrRetire` | core/mmu.c:248-280 | an unlinked page is freed at once with the batch untouched, or stays marked and takes its bit in the batch; it fails if and only if that bit is taken |
| `PageTables.PageTable.SplitLargePage` | core/mmu.c:348-377 | the split installs a full table below the entry; no page moves, and the pages of the block alone gain the access flag |
| `PageTables.PageTable.TryFree` | core/mmu.c:324-346 | a table is unlinked if and only if it is empty, without changing any translation, and is then freed or in the batch as asked |
| `PageTables.PageTable.ModifyOrDelete0` | core/mmu.c:408-443 | the last-level loop changes exactly the pages of its range, leaves no empty table behind, and puts one it empties where it belongs |
| `PageTables.PageTable.ModifyOrDelete` | core/mmu.c:445-568 | the loop of a higher level does the same with cut blocks split first; deferred, every table that left the tree is in the batch |
| `PageTables.PageTable.ModifyOrDeleteMap` | core/mmu.c:570-598 | for every mask off the frame and type bits: what becomes of each page; that this is exactly the mapped pages of the rounded range if and only if the cut blocks have the access flag; that detached tables are in the batch if and only if the update is deferred; and that a new table covers a page of the range |
| `PageTables.PageTable.AddRange` | core/mmu.c:623-780 | exactly the unmapped pages of the range are mapped, each to its own frame, by the largest leaves that policy, alignment and earlier mappings allow |
| `PageTables.PageTable.AddMap` | core/mmu.c:782-833 | a rejected request changes nothing; an accepted one extends the flat map by exactly page(va)+k to page(pa)+k on the unmapped pages of the range, with the largest leaves possible and new tables only for that range, and leaves the batch alone |
| `PageTables.PageTable.Lookup` | core/mmu.c:860-897 | the entry found is the leaf that translates the address, with its size; nothing is found exactly for unmapped addresses |
| `PageTables.PageTable.UsedPages` | core/mmu.c:70-149 | used pages are the reachable tables and the retired pages, and no retired page is reachable |
| `PageTables.PageTable.OneWordPool` | core/mmu.c:248-280 | in a pool of one word every batch names its own pages |
| `PageTables.PageTable.FreeRetired` | core/mmu.c:282-311 | the batch frees exactly the retired pages if and only if all of them lie in the first word |
| `PageTables.PageTable.Serve` | core/mmu.c:282-833 | one add, modify, delete or batch free has its effect on every page and on the accounts of the pool |
| `PageTables.PageTable.RunAll` | core/mmu.c:282-833 | after any sequence of adds, modifies and deletes, deferred or not, and batch frees each page translates as the sequence says page by page, up to the access flag and exactly if no modify clears it; no empty table is left, and used pages are tables and retired pages all along |
| `PageTables.HeldUntilFreed` | core/mmu.c:248-311 | in every such run a table detached by a deferred update stays used and out of the tree until the batch free, which frees it and only retired pages |
| `PageTables.ClearedFlagComesBack` | core/mmu.c:348-377 | a table, reached by an add and two modifies none of which runs out of pages, on which the second modify changed pages outside its range |
| `PageTables.SecondWordPageIsNotFreed` | core/mmu.c:302-308 | a pool of two words, all pages allocated in turn and the first of the second word retired, on which the batch free frees the root instead |
| `CbsServers.ChargeRuntime` | core/sched/cbs.c:300-318 | the charging loop rolls through whole windows: the closed form of remaining budget and deadline |
| `CbsServers.ReplenishAfterDepletion` | core/sched/cbs.c:277-298 | the do-while moves the deadline by the least number of periods that puts it ahead of now |
| `CbsServers.ChargedBounded` | core/sched/cbs.c:300-318 | charging keeps T*(charged + remaining) at most Q*(deadline - origin) |
| `CbsServers.RefreshedBounded` | core/sched/cbs.c:375-383 | so does the active refresh, which leaves budget and a deadline ahead |
| `CbsServers.WokenBounded` | core/sched/cbs.c:355-409 | so does the inactive wake rule |
| `CbsServers.BandwidthBound` | core/sched/cbs.c:254-409 | for every interleaving of charging, refresh and wake the total charged so far stays within the reserved share of the time up to the deadline |
| `CbsServers.WakeDensity` | core/sched/cbs.c:385-409 | after a wake the density is at most Q/T if and only if the server was not depleted, overdue and off its grid |
| `CbsServers.DenseWake` | core/sched/cbs.c:394-409 | a run from set-up after which it is not |
| `OrderedQueues.InsertInto` | core/sched/cbs.c:420-443 | the list walk inserts before the first larger key, or, keeping its turn, before the first that is not smaller |
| `OrderedQueues.MoveNode` | core/sched/cbs.c:500-515 | when a node is moved, the node noted as next still follows exactly the nodes already seen |
| `EdfWalk.Walk` | core/sched/cbs.c:500-515 | the safe walk that reinserts what is due ends with everything due renewed once, the members the same, and the queue ordered if it was |
| `EdfWalk.InsertNearly` | core/sched/cbs.c:420-443 | into a queue in order but for the current thread an insertion keeps the order of the others unless it stops ahead of a current thread with a later key whose successor has an earlier one, and only then breaks it |
| `PolicyThreads.SwitchedStatus` | core/schedule.c:881-915 | a switch to an active thread or idle leaves exactly one running thread and every other active thread active |
| `CbsRunqueue.Cbs.constructor` | core/sched/cbs.c:662-675 | an empty ordered run queue |
| `CbsRunqueue.Cbs.AddThread` | core/sched/cbs.c:685-704 | a new blocked server starts with its full budget and within the bound; the queue keeps its order |
| `CbsRunqueue.Cbs.AccountRuntime` | core/sched/cbs.c:471-486 | only the running thread is charged, for exactly the time since it was last charged |
| `CbsRunqueue.Cbs.RefreshThread` | core/sched/cbs.c:488-498 | an active thread is refreshed and put in its place; any other is left alone |
| `CbsRunqueue.Cbs.RefreshQueues` | core/sched/cbs.c:500-515 | the same threads stay queued, each refreshed exactly once, and in order if they were |
| `CbsRunqueue.Cbs.PickNext` | core/sched/cbs.c:706-733 | idle if and only if there is no candidate; every candidate then has budget and a deadline ahead and the rest stay queued; with the queue in order apart from the current thread the choice is the earliest deadline and the queue is in order again; if nothing is due it is the head |
| `CbsRunqueue.Cbs.Schedule` | core/schedule.c:826-921 | the scan of any priority requests, then the choice and the switch: the earliest deadline, and a queue in order, whenever the scan squeezes nothing, and that is so if it was harmless; with idle work the policy is not asked |
| `CbsRunqueue.Cbs.Sleep` | core/sched/cbs.c:735-743 | the thread is charged if current, leaves the queue and blocks now or at the next switch |
| `CbsRunqueue.Cbs.Wake` | core/sched/cbs.c:745-754 | a sleeping thread is queued in order with the wake rule applied; any other is left alone |
| `CbsRunqueue.Cbs.TimerHandler` | core/sched/cbs.c:571-613 | afterwards every candidate is queued and eligible, in order if the others were |
| `CbsRunqueue.Cbs.Prioritize` | core/sched/cbs.c:756-771 | a queue in order stays so if and only if the thread is not a queued current one carried past its successor; one in order apart from the current thread stays so if and only if the thread is not squeezed in ahead of it |
| `CbsRunqueue.Cbs.Scan` | core/schedule.c:857-872 | the requests of active threads are served in list order; a smooth scan keeps the order of all but the current thread |
| `CbsPriority.HarmlessIsSmooth` | core/schedule.c:857-872 | a scan of an ordered queue squeezes nothing if no request, save the last before a choice, is for a queued current thread that is due |
| `CbsRunqueue.Cbs.Run` | core/schedule.c:826-1129 | in any run of thread set-up, sleep, wake, timer and schedule every choice is the earliest deadline and the queue in order, up to the first scan that is not harmless |
| `CbsRunqueue.WrongChoice` | core/schedule.c:857-881 | a run from an empty queue that ends with a choice that is not the earliest |
| `BfpAdmission.ValidateResponseTime` | core/sched/bfp.c:215-267 | an accepted response is the least fixed point of the demand and within the period; too late means no time within the period is enough |
| `BfpAdmission.StepTooShort` | core/sched/bfp.c:190-214 | an iterate of the recurrence never passes the least fixed point |
| `BfpAccounting.AccountRuntime` | core/sched/bfp.c:388-438 | the constant-time catch-up equals charging to each boundary, replenishing and going on: remaining budget, boundary, replenishments and overruns |
| `BfpAccounting.FullPeriods` | core/sched/bfp.c:412-437 | the closed form of any number of full periods |
| `BfpAccounting.AdvancedIsNext` | core/sched/bfp.c:344-365 | skipping inactive periods lands on the first boundary of the same grid after now |
| `BfpAccounting.BudgetOnlyAtBoundary` | core/sched/bfp.c:344-438 | neither charging nor waking raises the budget before the next boundary |
| `BfpAccounting.BoundaryAhead` | core/sched/bfp.c:90-104 | the first multiple of the period after now |
| `BfpRunqueue.Bfp.constructor` | core/sched/bfp.c:576-589 | empty queues at rest |
| `BfpRunqueue.Bfp.AddThread` | core/sched/bfp.c:600-644 | a new blocked thread with its full budget, on the grid of its period |
| `BfpRunqueue.Bfp.RefreshDepleted` | core/sched/bfp.c:469-478 | every depleted thread whose boundary passed moves to the ready queue with a fresh budget, behind its equals |
| `BfpRunqueue.Bfp.PickNext` | core/sched/bfp.c:651-673 | the highest priority with budget left is chosen, the current thread first among equals, idle if and only if nobody has any; budget left or not decides the queue of the others |
| `BfpRunqueue.Bfp.Schedule` | core/schedule.c:826-921 | the selection survives the switch |
| `BfpRunqueue.Bfp.Sleep` | core/sched/bfp.c:675-684 | the thread is charged, leaves its queue and gets no budget |
| `BfpRunqueue.Bfp.Wake` | core/sched/bfp.c:686-700 | a wake only moves the thread on to its current period and queues it by what it has left |
| `BfpRunqueue.Bfp.TimerHandler` | core/sched/bfp.c:497-518 | the current thread is charged and every queued one moved on to its period; the same threads stay queued, in order, by what they have left |
| `BfpRunqueue.Bfp.Run` | core/schedule.c:826-1129 | in any run of thread set-up, sleep, wake, timer and schedule every choice has the highest priority of those with budget left, idle only if nobody has any, and every boundary is a multiple of its period |
| `RtdsQueue.AdvancedOk` | core/sched/rtds.c:252-271 | the period that contains now, on the grid of the old deadline, with the budget of one period |
| `RtdsQueue.AdvancedBoundary` | core/sched/rtds.c:132-148 | a server that does not run ahead is brought to the first boundary after now, any other left alone |
| `RtdsQueue.SameDeadlines` | core/sched/rtds.c:138-147 | with one period for all, every server brought up to now has the same deadline |
| `RtdsRunqueue.Rtds.constructor` | core/sched/rtds.c:462-474 | empty queues, with the one reservation of the pCPU |
| `RtdsRunqueue.Rtds.AddThread` | core/sched/rtds.c:483-511 | a new blocked thread has the reservation of the pCPU, its full budget and the next boundary as its deadline |
| `RtdsRunqueue.Rtds.RefreshReady` | core/sched/rtds.c:424-431 | the ready queue keeps its members, brought up to date, in order of their current deadlines if it was in order |
| `RtdsRunqueue.Rtds.RefreshDepleted` | core/sched/rtds.c:433-436 | threads whose period rolled move to the ready queue; the depleted queue is then the old one without them, in the same order |
| `RtdsRunqueue.Rtds.EarliestDepleted` | core/sched/rtds.c:313-340 | the first of the earliest deadlines |
| `RtdsRunqueue.Rtds.PickNext` | core/sched/rtds.c:513-548 | whatever the order of the ready queue, every candidate has the boundary after now as its deadline and the queue is in order afterwards; the earliest deadline among candidates with budget is chosen, a depleted one, again the earliest, only when none has any, idle if and only if there is no candidate; if nothing is due, the head |
| `RtdsRunqueue.Rtds.Schedule` | core/schedule.c:826-921 | the scan of any priority requests, then the choice and the switch: always the earliest, with the ready queue in order; with idle work the policy is not asked |
| `RtdsRunqueue.Rtds.Sleep` | core/sched/rtds.c:550-558 | the thread is charged if current and leaves both queues |
| `RtdsRunqueue.Rtds.Wake` | core/sched/rtds.c:560-580 | a wake only moves the thread on to its current period and queues it by what it has left |
| `RtdsRunqueue.Rtds.RefreshQueues` | core/sched/rtds.c:412-437 | every queued thread is brought up to date once, the depleted queue then holds those without budget, and deadlines move at most to the boundary after now |
| `RtdsRunqueue.Rtds.TimerHandler` | core/sched/rtds.c:439-460 | every candidate is queued and up to date, the depleted queue holds those without budget; in order if it was, or if the time read before the lock is the latest |
| `RtdsRunqueue.Rtds.Prioritize` | core/sched/rtds.c:582-596 | a queue in order stays so if and only if the thread is not a ready current one carried past its successor; one in order apart from the current thread stays so if and only if the thread is not squeezed in ahead of it |
| `RtdsRunqueue.Rtds.Scan` | core/schedule.c:857-872 | the requests of active threads are served in list order |
| `RtdsRunqueue.Rtds.Run` | core/schedule.c:826-1129 | in any run of thread set-up, sleep, wake, timer and schedule, whatever priorities are asked for, every choice is the earliest, idle only without a candidate, and leaves the ready queue in order |
| `Arinc653.ValidateConfig` | core/sched/arinc653.c:207-241 | a configuration is accepted if and only if every window is sound and they fit the major frame; then the rounded windows fit the rounded frame |
| `Arinc653.TicksAdd` | core/ticks.c:13-16 | rounding two times down never exceeds rounding their sum down |
| `Arinc653.IndexUnique` | core/sched/arinc653.c:137-146 | the window is the only one whose interval contains the offset, or the idle tail |
| `Arinc653.FrameCongruent` | core/sched/arinc653.c:118-130 | every frame starts a whole number of major frames after the first |
| `Arinc653.ChangeIsNext` | core/sched/arinc653.c:148-155 | up to the deadline frame and window stay, at the deadline one of them is new |
| `Arinc653.Arinc.SetSchedule` | core/sched/arinc653.c:243-302 | a schedule is taken if and only if it is accepted, and its grid of frames then starts now; any other leaves the one there is |
| `Arinc653.Arinc.StartFrame` | core/sched/arinc653.c:86-102 | the state is that of the first instant of a grid of frames that starts here |
| `Arinc653.Arinc.Resume` | core/sched/arinc653.c:465-476 | the grid starts anew, whatever was missed |
| `Arinc653.Arinc.Advance` | core/sched/arinc653.c:104-157 | after any earlier calls the state is a function of the first frame and the latest time seen in it alone, the deadline is the next change of window, and the grid starts anew if and only if the clock is before the frame |
| `Arinc653.Arinc.PickNext` | core/sched/arinc653.c:426-452 | a thread is chosen if and only if it owns that window and can run |
| `Arinc653.Arinc.Run` | core/sched/arinc653.c:243-476 | in any run of calls every choice is that of the window on the grid, which only a new schedule, a resume or a clock before the frame starts anew |
| `SchedulerGates.StepOk` | core/schedule.c:826-1220 | every step keeps: running is being current, only a running thread is about to block, a gated thread is blocked or about to block |
| `SchedulerGates.StepGood` | core/schedule.c:961-1129 | every step but the thaw of a gated thread keeps: an acknowledged slot names a blocked vCPU of its pCPU and VM |
| `SchedulerGates.QuiesceSound` | core/schedule.c:961-1129 | in every reachable state a matching acknowledgement means blocked, not about to block and not current |
| `SchedulerGates.QuietUntilRelease` | core/schedule.c:1020-1042 | an acknowledged vCPU stays off its pCPU through any run until its release |
| `SchedulerGates.ThawKeepsQuiesce` | core/schedule.c:1195-1220 | after a thaw a matching acknowledgement means off the pCPU in all that can follow, if and only if the thaw does not replay a wake of an acknowledged thread |
| `SchedulerGates.RequestKeepsSlots` | core/schedule.c:961-1001 | a request keeps the slots sound if and only if it does not hand an acknowledgement to a thread that is not blocked, and makes a thread that is not off its pCPU count as acknowledged at once if and only if the generations agree as well |
| `SchedulerGates.SharedSlotBreaks` | core/schedule.c:979-993 | from any start with two vCPUs on one slot, a run to a matching acknowledgement of a thread that is not off its pCPU |
| `SchedulerGates.SoundWhenSlotsUnique` | core/schedule.c:961-1129 | from start-up the acknowledgement promise holds in every run if and only if no two vCPUs have the same slot |
| `SchedulerGates.FrozenStays` | core/schedule.c:1115-1193 | a frozen thread stays frozen under every step but the matching thaw |
| `SchedulerGates.FreezeThawKeepsWakes` | core/schedule.c:1131-1220 | through any run behind the gate, the thawed thread is awake if and only if it was awake before or was woken behind the gate |
| `Scheduler.Scheduler.SleepThread` | core/schedule.c:923-951 | is the sleep step |
| `Scheduler.Scheduler.WakeThread` | core/schedule.c:1082-1129 | is the wake step: swallowed by a quiesce request, deferred by a freeze gate |
| `Scheduler.Scheduler.FreezeThread` | core/schedule.c:1146-1171 | is the freeze step, and owns the wake exactly of a thread that was awake |
| `Scheduler.Scheduler.ThawThread` | core/schedule.c:1195-1220 | is the thaw step, and succeeds exactly for the matching epoch |
| `Scheduler.Scheduler.ScheduleOn` | core/schedule.c:826-921 | is the switch step |
| `Scheduler.Scheduler.RequestQuiesce` | core/schedule.c:961-1001 | is the request step, taken exactly when the slot is free, its own or settled |
| `Scheduler.Scheduler.ReleaseQuiesce` | core/schedule.c:1020-1042 | is the release step |
| `Scheduler.Scheduler.AckFromIdle` | core/schedule.c:1044-1080 | the loop over requested VMs is the acknowledge step, reporting whether any was acknowledged |
| `Scheduler.Scheduler.PauseVcpu` | core/vcpu.c:409-443 | every vCPU that is not offline ends up paused and put to sleep, with all acknowledgements kept |
| `Scheduler.Scheduler.PauseVmAsync` | core/vm.c:532-565 | with the other pCPUs running between any two looks, nothing pending means all vCPUs of the VM are off their pCPUs at once |
| `EventWait.StepKeeps` | core/event.c:71-99 | every step of waiter, signaller, reset and scheduler keeps the wait invariant |
| `EventWait.NoLostWakeup` | core/event.c:71-99 | in every interleaving, whenever the event is set with the waiter recorded, the waiter is neither blocked nor about to block, at the latest when the signaller drops the lock |
| `PmHooks.HookTable.Register` | core/pm.c:463-500 | the status of every rejection; an accepted hook goes in behind those of the same or a smaller priority |
| `PmHooks.InsertedKeeps` | core/pm.c:487-497 | the table stays sorted by priority with distinct names |
| `PmHooks.HookTable.SetUp` | core/pm.c:463-509 | the table is what the registrations before the end of set-up make it, and no later one changes it |
| `PmTransaction.DoKeeps` | core/pm.c:148-421 | every operation of another pCPU keeps the transaction invariant, and to a transaction under way it can only note a wake, abort it or ask a suspended VM back |
| `PmTransaction.OthersKeep` | core/pm.c:148-421 | so does any number of them mixed with scheduler steps, and frozen threads stay frozen |
| `PmTransaction.RunningIsClean` | core/pm.c:921-947 | in running no VM is required or kept from I/O, no thread has a gate, and every hook that succeeded was unwound without error |
| `PmTransaction.FailedIsForGood` | core/pm.c:107-126 | a failed transaction cannot be left, and keeps exactly the required VMs from I/O |
| `PmTransaction.TopologyExcludesSuspend` | core/pm.c:388-421 | while a VM restart is announced no suspend starts |
| `PowerManagement.PowerManager.constructor` | core/pm.c:56-66 | at start the transaction is at rest in running |
| `PowerManagement.PowerManager.Yield` | core/pm.c:148-421 | the interference allowed between two locked sections, under which the invariant holds at every such point |
| `PowerManagement.PowerManager.SetHookCompleted` | core/pm.c:527-543 | a success is recorded exactly for the epoch under way |
| `PowerManagement.PowerManager.PriorityOrder` | core/pm.c:554-634 | hooks have been called by rising and unwound by falling priority |
| `PowerManagement.PowerManager.RunForward` | core/pm.c:554-585 | hooks run in ascending order up to the first failure, all of them if there is none; at each suspend callback, and afterwards, every vCPU of every required VM is frozen or was seen offline when the freeze came to it |
| `PowerManagement.PowerManager.RunReverse` | core/pm.c:597-634 | unwinds run in descending order, each at most once and only for hooks that succeeded; a failing one does not keep the others from being unwound, and success means all of them were |
| `PowerManagement.PowerManager.GateVm` | core/pm.c:696-750 | every vCPU of the VM is gated, or the log of the run shows it offline since the freeze began, and the record names exactly the gated ones |
| `PowerManagement.PowerManager.FreezeOne` | core/pm.c:734-745 | the wake recorded as owned is that of a thread that was awake when it was frozen |
| `PowerManagement.PowerManager.FreezeGuests` | core/pm.c:752-826 | although threads are polled one after another, success means all vCPUs of all required VMs that were not seen offline are frozen at once |
| `PowerManagement.PowerManager.ThawOne` | core/pm.c:886-892 | exactly the wakes PM took are given back |
| `PowerManagement.PowerManager.ThawGuests` | core/pm.c:828-919 | success opens every gate and then the I/O of the required VMs; failure leaves their I/O closed |
| `PowerManagement.PowerManager.CompleteRunning` | core/pm.c:921-947 | running is entered only with all gates open and all hooks unwound |
| `PowerManagement.PowerManager.FailEpoch` | core/pm.c:107-126 | failure of the epoch under way, with its VMs kept from I/O |
| `PowerManagement.PowerManager.Rollback` | core/pm.c:949-980 | ends in running if no unwind callback and no lookup fails, and failed otherwise |
| `PowerManagement.PowerManager.Restore` | core/pm.c:982-998 | ends in running if no resume callback and no lookup fails, and failed otherwise |
| `PowerManagement.PowerManager.ProcessFromIdle` | core/pm.c:1000-1084 | one run of the state machine leads from rest to rest, leaves a failed transaction as it is, and brings one that is restoring or aborting back to running exactly when nothing fails; a suspended one has every hook taken and every vCPU of every required VM frozen or seen offline |
| `PowerManagement.PowerManager.Run` | core/pm.c:1000-1084 | so does any number of runs |
| `PmTransaction.OthersReplay` | core/pm.c:148-421 | what the other pCPUs did to the scheduler is the run of their steps, so the log of a transaction replays to its state |
| `SmpCall.StepKeeps` | core/notify.c:40-212 | every load and store of caller and handlers keeps the mailbox invariant, unless a timed-out call gives up the mailbox under a handler past its last check |
| `SmpCall.CallIsSound` | core/notify.c:122-212 | a return of 0 means every target found active ran this function on this data, and no handler of this call is under way |
| `SmpCall.CallIsSoundWithoutTimeouts` | core/notify.c:122-212 | in particular when no call has timed out |
| `SmpCall.ReleaseAfterTimeout` | core/notify.c:200-212 | after a timed-out call gave up the mailbox every later return of 0 can be trusted if and only if no handler is past its last check |
| `SmpCall.StrandedReached` | core/notify.c:55-61 | from start-up a state is reached in which one is, and later calls cannot be trusted |
| `SmpCall.StaleClear` | core/notify.c:55-61 | from every state with a handler past its last check, a run to a call that returns 0 and was never run by its target |
| `VmWatchdog.Save` | core/vm_wdt.c:298-314 | the time left of the VM and of each expected vCPU at suspend |
| `VmWatchdog.Restore` | core/vm_wdt.c:1404-1429 | the stamps that stand for the times left, and the recovery clock moved by the time slept |
| `VmWatchdog.AgeRoundTrip` | core/vm_wdt.c:316-343 | an age below the timeout comes back exactly; any other comes back expired if and only if the clock is past the timeout |
| `VmWatchdog.SuspendResume` | core/vm_wdt.c:1404-1505 | suspend followed by resume does that to the VM and to every expected vCPU |
| `VmWatchdog.MaxAgeKept` | core/vm_wdt.c:188-205 | with every vCPU below the timeout the age of the VM comes back too |
| `VmWatchdog.Watchdog.ClaimRestart` | core/vm_wdt.c:919-973 | a restart is claimed if and only if it is enabled, none is pending, the maximum is not reached and the heartbeat has expired; a claim has a generation never used before |
| `VmWatchdog.Watchdog.RestartComplete` | core/vm_wdt.c:1051-1075 | only the first report of a reset is taken |
| `VmWatchdog.Watchdog.Advance` | core/vm_wdt.c:996-1256 | the next locked section of a poll, whatever has happened since the last one; a VM goes into reset only if the pause asked for this very recovery waited for nobody |
| `VmWatchdog.Watchdog.ProcessRecovery` | core/vm_wdt.c:1159-1256 | a poll that nobody disturbs moves each state on as its report says |
| `VmWatchdog.Watchdog.Kick` | core/vm_wdt.c:1723-1849 | a kick ends a recovery exactly when it makes a VM in verification healthy |
| `VmWatchdog.Watchdog.ResetVm` | core/vm_wdt.c:1628-1721 | only a powered-off VM loses its recovery and its counts |
| `VmWatchdog.Watchdog.SuspendVm` | core/vm_wdt.c:1431-1475 | refused during a system-wide suspend, while a restart is pending, or when another epoch holds the entry |
| `VmWatchdog.Watchdog.ResumeVm` | core/vm_wdt.c:1477-1505 | taken for the epoch that suspended, with the recovery unchanged |
| `VmWatchdog.Watchdog.SuspendAll` | core/vm_wdt.c:1270-1320 | the time left of every entry is put away, a restart pending or not; asked again it is taken for the same epoch only and changes nothing |
| `VmWatchdog.Watchdog.ResumeAll` | core/vm_wdt.c:1322-1402 | every entry comes back if and only if the epoch is the one in force and still holds all of them; otherwise nothing changes |
| `VmWatchdog.ResetWhileHeld` | core/vm_wdt.c:1628-1721 | a VM reset during the system-wide suspend after which the resume is refused |
| `VmWatchdog.Watchdog.Do` | core/vm_wdt.c:878-1849 | only a claim adds to the claims of a VM and only power-off drops them; a generation is noted as quiet only when its pause waits for nobody; a system-wide suspend that lost an entry is not left |
| `VmWatchdog.Watchdog.Run` | core/vm_wdt.c:878-1849 | through any interleaving of the locked sections, those inside a poll too, every claim since power-off is counted as one restart once it has ended, at most one is under way, claims stay within the maximum and failures within restarts, and a VM in reset or verification was quiet for this very recovery |

## Left out

- Ticks, epochs and generations do not wrap and deadlines do not saturate at 2^64; counters do not saturate.
- Memory ordering: release and acquire accesses are sequentially consistent single steps.
- Liveness and wall-clock bounds: a timeout is a step that may happen.
- Page-table flushes, cache maintenance, the sanitised page with a non-zero address and the stage-2 replace hook.
- A modify over an absent top-level entry skips it, as the code does where assertions are compiled out.
- PageTables.PageTable.ModifyOrDeleteMap: takes masks that avoid the frame and type bits of a descriptor, as every caller passes; `ModifyStaysInField` says what others would do.
- PageTables.PageTable.RunAll: takes deferred updates in a pool of one word only, because beyond it a batch free is wrong as `FreeRetired` says.
- Kick and timeout bookkeeping of the watchdog that only feeds logs: event sequences, notice rings, token displays, console and virtio heuristics.
- CbsPriority.HarmlessIsSmooth: is one way only; a scan that is not harmless may by luck still leave the earliest at the head, which depends on every later insertion.
- RtdsRunqueue.Rtds.Run: takes `schedule` to read a clock that does not go back, which it does under the lock; the other calls may use a time from before the lock.
- Programming of the local timers, statistics, admission by utilisation in CBS, and the boost policies bvt, prio, iorr and noop.
- Arinc653.Arinc.SetSchedule: does not model the copy of VM and vCPU numbers; the owners of the windows are given to `PickNext`.
- SchedulerGates.StepOk: does not model thread creation and removal, the range test of the pCPU number, nor priority requests, which change no status.
- PmTransaction.OthersKeep: takes the transaction as the only user of freeze and thaw, as it is in the repository.
- Scheduler.Scheduler.PauseVmAsync: takes the VM lifecycle lock as given, so nobody releases or thaws the vCPUs of that VM while it runs; a vCPU state change by compare-and-swap is one step.
- EventWait.NoLostWakeup: covers one waiter that nobody else puts to sleep, freezes or asks to quiesce.
- PowerManagement.PowerManager.GateVm: takes freezing a thread and recording it as one step; nobody else reads the record before the gate is complete.
- PowerManagement.PowerManager.FreezeGuests: polls a bounded number of times, any number, instead of until a time.
- Error codes, last-error records and phase durations of the transaction, and the test for finalised hooks, which every request finalises first.
- VmWatchdog.Watchdog.Run: takes the watchdog thread as one thread that ends a poll before the next claim or poll, as it is in the repository.
