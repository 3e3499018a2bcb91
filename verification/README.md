# Scarlet kernel: a verified model of its scheduling, memory, IPC and start-up core

This project models the hard core of the Scarlet kernel and proves what that core is for.

* **Scheduling and waiting** (`Sched*.dfy`, `TaskPool.dfy`, `Scheduler.dfy`): the round-robin `run` loop over
  per-CPU ready, blocked and zombie queues, the fixed-size pool of tasks, wakers with their wait queues, `exit`,
  `wait` and `sys_waitpid`. Every interleaving of spawns, clones, blocks, wakes, exits, waits and scheduler calls
  on two CPUs is a run of a state machine (`SchedRuns.Step`); the results are about all its runs. The class
  `Scheduler.Scheduler` does the same steps on arrays, maps and queues in place and is proved equal to the
  state machine step by step. `SchedPanic.dfy` tells the outcome of a call of `run` from the state before it.
* **Virtual memory** (`Vmem.dfy`, `AddressSpace.dfy`, `FixedInsert.dfy`, `Coalesce.dfy`, `FirstFit.dfy`,
  `VmManager.dfy`): `VirtualMemoryManager` as an ordered map of mappings with a one-entry lookup cache and a
  lazily filled page table. The meaning of an address space is a flat function from addresses to
  (physical address, permissions, sharing); every operation is proved against that function.
* **Task memory** (`FreePages.dfy`, `Heap.dfy`, `TaskMemory.dfy`, `Fork.dfy`, `CloneMemory.dfy`): page allocation
  and freeing, the program break, and the copy of an address space made by `clone_task`.
* **IPC** (`Pipe.dfy`, `PipeRuns.dfy`, `Events.dfy`, `EventPass.dfy`): pipes over every run of their endpoints, and
  the per-task event queue with the scheduler's event pass.
* **Program start** (`StackImage.dfy`, `StackSetup.dfy`, `StackDecode.dfy`): the argc/argv/envp image on the user
  stack and the kernel's own reader of string arrays as its inverse.

`Base.dfy` holds shared datatypes and facts about sequences. `dafny verify dfyconfig.toml` checks the project;
`SchedExamples.dfy` collects reachable states in which the unsafe interleavings happen.

Integers are unbounded in the model. `usize` is 64 bits wide (`Vmem.ADDRESS_LIMIT`), and where the kernel would
overflow, which is a panic in its build profile, the model has a precondition or an explicit outcome.
I/O, the frame allocator, event handlers and device interrupts are parameters: frames handed out by the allocator,
the outcome of handling an event, and wakes that may happen at any time.

## What turned out not to hold

For each of these the code is modelled as it is; one lemma shows the failure and another gives the exact condition.

* `run` may remove the Terminated task it then returns as the previous one, and `schedule` unwraps a lookup of it
  (`SchedOld.PreviousSurvivesIff`, `SchedOld.PreviousRemovedExample`).
* `Waker::wait` pushes a task on the wait queue and sets it Blocked in two steps. A step of somebody else in between
  that takes it off that queue loses the wake-up: a `wake_all`, one `wake_one` more than there were waiters in front,
  or a call of `run` on the other CPU that reaps a zombie of that waker. No later step can make up for it
  (`SchedWindow.LostWakeupIff`, `SchedExamples.LostWakeupExample`, `SchedLost.LostForever`).
* `sys_waitpid` looks for an exited child and blocks in two steps. On two CPUs the child can exit and be reaped in
  between, and then the parent stays Blocked (`SchedKeeps.BlockKeepsIff`, `SchedOld.MissedExitExample`,
  `SchedLost.MissedForever`, `SchedExamples.MissedExitStuck`). All other theorems treat each of the two pairs of
  steps as one.
* `waitpid(-1)` by a task without children blocks it for good; with a child it can always be woken
  (`SchedResume.WaitAnyIff`, `SchedResume.WaitAnyWithoutChildren`).
* The xv6 `kill` calls `exit` on a task that is not running; that breaks the queue invariant exactly for Blocked
  tasks and for Terminated ones whose parent lives (`SchedKeeps.ExitKeepsIff`, `SchedExamples.KillExample`).
* A reaped task never leaves its zombie queue or the pool, collected or not. A collected child is reclaimed if and
  only if it was collected while still in a ready queue, and a task that keeps collecting children fills the pool for
  good (`SchedReclaim.ReclaimedIff`, `SchedReclaim.PoolExhausted`, `SchedReclaim.FullForever`).
* `run` panics on a lone Terminated task and on a full pool; which states end so is told exactly by
  `SchedPanic.RunForeseen`.
* `free_pages` loses the upper part of a mapping that reaches over the last two freed pages and beyond
  (`FreePages.FreesExactlyIff`, `FreePages.TailLostExample`).
* `find_unmapped_area` passes its 2 GB limit exactly when nothing below the limit is free but something below a
  mapping is (`FirstFit.LimitPassedIff`, `FirstFit.LimitExample`).
* `unmap_range_from_mmu` off a page boundary misses the last page exactly when the range reaches into one page more
  than its size rounds up to (`VmManager.UnmapsWholeIff`, `VmManager.UnmapsShortExample`); its callers pass page
  boundaries.
* Private stores of a parent stay invisible to its clone exactly when no private frame of the parent is also
  reachable through one of its shared mappings (`Fork.ParentApartIff`, `Fork.AliasExample`).

Where comments and code disagree the model follows the code: `clone_task` announces the state Ready but copies the
parent's state; `is_critical_event` announces that all High events are critical but treats only kill-like ones so;
`cstring_to_string` has an error for overlong strings but cuts them off instead.

## Model

| member | source | states |
|---|---|---|
| SchedTheorems.QueuePartition | kernel/src/sched/scheduler.rs:134-269 | In every reachable state each id in the pool occurs exactly once across all ready, blocked and zombie queues and no other id occurs; blocked queues hold Blocked tasks, zombie queues Zombie or Terminated ones; so the list of all task ids has each task once. |
| SchedTheorems.NoLostWakeup | kernel/src/sync/waker.rs:109-196 | In every reachable state a task is Blocked exactly when it waits on exactly one waker; wake_all makes every waiter, parked or not, Running in exactly one ready slot, empties the queue, touches nobody else and counts the waiters. |
| SchedTheorems.WakesEveryWaiter | kernel/src/sched/scheduler.rs:405-435 | The same effect of waking for any state that satisfies the placement and waiting invariants. |
| SchedTheorems.NoMissedExit | kernel/src/task/syscall.rs:275-353 | In no reachable state does a parent wait, on the child's or on its own wait-any waker, for a child that has reached a zombie queue. |
| SchedTheorems.BoundedWaiting | kernel/src/sched/scheduler.rs:154-269 | A task at position k of a ready queue that stays runnable is dispatched by the (k+1)-th call of run on that CPU, whatever else happens between. |
| SchedTheorems.RunNeverPanics | kernel/src/sched/scheduler.rs:154-269 | With a runnable task in the queue run ends by dispatching, never in one of its panics. |
| SchedTheorems.ReadyPrefix | kernel/src/sched/scheduler.rs:134-149 | No step other than a call of run on that CPU disturbs a ready queue except at its end. |
| SchedRun.TurnDecreases | kernel/src/sched/scheduler.rs:159-268 | Each turn of run's loop lowers the measure (non-runnable entries, then emptiness), although reaping can refill the queue. |
| SchedRun.RunLoopKeeps | kernel/src/sched/scheduler.rs:154-269 | A whole call of run keeps the invariant. |
| SchedRun.RunDispatches | kernel/src/sched/scheduler.rs:154-269 | run hands the CPU to a runnable task, makes it the current one and puts it at the end of its queue. |
| SchedRun.ReapKeeps | kernel/src/sched/scheduler.rs:171-184 | Moving a zombie to the zombie queue and waking its waiters and its parent's keeps the invariant. |
| SchedFair.RunServes | kernel/src/sched/scheduler.rs:154-269 | One call of run either dispatches a runnable entry or moves it strictly forward. |
| SchedFair.RunOthers | kernel/src/sched/scheduler.rs:154-269 | run on one CPU only appends to the ready queues of the others. |
| SchedFair.RunReaps | kernel/src/sched/scheduler.rs:171-184 | A zombie entry of the ready queue is reaped by a call of run or moves strictly forward. |
| SchedState.ReapGrows | kernel/src/sched/scheduler.rs:171-184 | Reaping only appends runnable tasks to ready queues, which is why run's loop ends. |
| SchedInv.WakeTaskEffect | kernel/src/sched/scheduler.rs:405-435 | Waking a Blocked task succeeds, makes it Running, takes it off a blocked queue if it was parked and leaves it in exactly one ready slot. |
| SchedInv.WakeAllEffect | kernel/src/sync/waker.rs:180-196 | wake_all wakes exactly the waiters and keeps placement and waiting in step. |
| SchedKeeps.WakeOneKeeps | kernel/src/sync/waker.rs:150-168 | wake_one keeps the invariant. |
| SchedKeeps.BlockKeepsIff | kernel/src/sync/waker.rs:109-141 | Blocking on a wait waker keeps the invariant if and only if the awaited child has not reached a zombie queue yet. |
| SchedKeeps.ExitKeepsIff | kernel/src/abi/xv6/riscv64/proc.rs:99-119 | exit called on any task keeps the invariant if and only if that task is neither Blocked nor Terminated with a live parent. |
| SchedKeeps.ExitKeeps | kernel/src/task/mod.rs:1028-1064 | exit of a running task keeps the invariant. |
| SchedKeeps.CollectKeeps | kernel/src/task/mod.rs:1073-1091 | Collecting a zombie child keeps the invariant. |
| SchedKeeps.CloneKeeps | kernel/src/task/syscall.rs:105-130 | Cloning keeps the invariant. |
| SchedRuns.WaitAnyEffect | kernel/src/task/syscall.rs:285-312 | The scan for any exited child reports one, or finds that none has exited. |
| SchedRuns.WaitpidEffect | kernel/src/task/syscall.rs:275-353 | sys_waitpid reports an exited child with its status, blocks on the right waker when the child lives, and fails on strangers, leaving everything else unchanged. |
| SchedRuns.StepKeeps | kernel/src/sched/scheduler.rs:121-463 | Every step of the system keeps the invariant. |
| SchedRuns.Reachable | kernel/src/sched/scheduler.rs:121-463 | Every state of every run from a state that satisfies the invariant satisfies it. |
| SchedExit.ExitStatusOnce | kernel/src/task/mod.rs:1028-1091 | Over every run a status reported by waitpid is the one its child passed to exit before, goes to the parent, and no child exits or is reported twice. |
| SchedWaiting.ParentWokenInTime | kernel/src/sched/scheduler.rs:171-184 | A parent waiting for an exited child at position k of a ready queue is taken off the wait queue by the (k+1)-th call of run on that CPU. |
| SchedResume.WaitAnyIff | kernel/src/task/syscall.rs:285-314 | A task waiting in waitpid(-1) has a continuation, without outside wakes of its waker, in which it runs again if and only if it has a child. |
| SchedResume.WaitAnyWithoutChildren | kernel/src/task/syscall.rs:285-314 | waitpid(-1) without children leaves the caller Blocked in every later state unless somebody else wakes that waker. |
| SchedWindow.LostWakeupIff | kernel/src/sync/waker.rs:109-131 | With any steps of others between the push and the state change, a task ends up Blocked with nobody to wake it if and only if one of those steps takes it off its waker; otherwise it waits on that waker alone. |
| SchedWindow.RunPushed | kernel/src/sched/scheduler.rs:154-269 | A call of run does the same with and without the pending push, except that reaping a zombie of that waker takes the push back. |
| SchedLost.LostForever | kernel/src/sync/waker.rs:109-131 | A task lost that way stays lost in every continuation of any length. |
| SchedLost.MissedForever | kernel/src/task/syscall.rs:341-347 | A parent that blocks on a child already in a zombie queue stays Blocked in every continuation in which nobody but the scheduler wakes the child's waker. |
| SchedOld.TerminatedSurvivesIff | kernel/src/sched/scheduler.rs:154-269 | A Terminated task in a ready queue survives a call of run if and only if an entry in front of it is dispatched. |
| SchedOld.PreviousSurvivesIff | kernel/src/sched/scheduler.rs:297-331 | What run returns as the previous task is still in the pool if and only if it was not Terminated or something in front of it was dispatched. |
| SchedOld.PreviousRemovedExample | kernel/src/sched/scheduler.rs:322-331 | A reachable state in which the previous task has been removed when schedule looks it up. |
| SchedOld.MissedExitExample | kernel/src/task/syscall.rs:314-345 | A reachable history on two CPUs in which a child exits and is reaped between the look and the blocking of its parent. |
| SchedExamples.MissedExitStuck | kernel/src/task/syscall.rs:341-347 | The parent of that history stays Blocked in every such continuation. |
| SchedExamples.LostWakeupExample | kernel/src/sync/waker.rs:109-131 | A reachable state in which the other CPU's scheduler reaps a child between the push and the state change of its parent, which is then lost. |
| SchedExamples.KillExample | kernel/src/abi/xv6/riscv64/proc.rs:99-119 | A reachable state in which killing a Blocked task breaks the invariant. |
| SchedPanic.RunForeseen | kernel/src/sched/scheduler.rs:154-269 | From the state before: run dispatches if a task of the CPU is runnable or will be woken by a zombie in its queue; otherwise it panics on a Terminated last entry, and on a pool full even without the removed tasks; no other panic occurs. |
| SchedReclaim.ReapedForever | kernel/src/sched/scheduler.rs:171-184 | Once reaped, a task is in a zombie queue and in the pool in every later state, collected or not. |
| SchedReclaim.LeavesFromReady | kernel/src/sched/scheduler.rs:242-245 | What leaves the pool was Terminated and in a ready queue, and leaves in a call of run. |
| SchedReclaim.ReclaimedIff | kernel/src/sched/scheduler.rs:154-269 | A Terminated task can ever leave the pool if and only if it is still in a ready queue. |
| SchedReclaim.ReapedFill | kernel/src/sched/scheduler.rs:36-95 | The pool never holds fewer tasks than have been reaped. |
| SchedReclaim.FullForever | kernel/src/sched/scheduler.rs:60-77 | A pool filled by reaped tasks but for one never again admits a spawn or a clone. |
| SchedReclaim.PoolExhausted | kernel/src/task/syscall.rs:105-130 | A reachable state in which one task has collected 1023 children and the pool is full. |
| TaskPool.SlotCount | kernel/src/sched/scheduler.rs:36-95 | When used and free indices partition the indices handed out, their counts add up. |
| TaskPool.TaskPool.constructor | kernel/src/sched/scheduler.rs:45-58 | An empty pool without leaked slots. |
| TaskPool.TaskPool.LiveCount | kernel/src/sched/scheduler.rs:36-95 | In a pool without leaks the live tasks and the free slots together are the slots handed out so far. |
| TaskPool.TaskPool.Add | kernel/src/sched/scheduler.rs:60-77 | Adding succeeds exactly when fewer than 1024 tasks are live, and then the pool is the finite map with one entry more. |
| TaskPool.TaskPool.Get | kernel/src/sched/scheduler.rs:79-82 | A lookup returns what was last stored under the id. |
| TaskPool.TaskPool.Remove | kernel/src/sched/scheduler.rs:84-90 | Removal returns the entry, deletes exactly it and recycles its slot. |
| Scheduler.Scheduler.AddTask | kernel/src/sched/scheduler.rs:134-149 | The new state is the state machine's; a full pool is a panic outcome. |
| Scheduler.Scheduler.Clone | kernel/src/task/syscall.rs:105-130 | The child is linked to its parent and queued as the state machine says. |
| Scheduler.Scheduler.WakeTask | kernel/src/sched/scheduler.rs:405-435 | The loops over CPUs and queue positions compute the state machine's wake. |
| Scheduler.Scheduler.WakeOne | kernel/src/sync/waker.rs:150-168 | Pops the first waiter and wakes it, as the state machine does. |
| Scheduler.Scheduler.WakeAll | kernel/src/sync/waker.rs:180-196 | The draining loop computes the state machine's wake_all and its count. |
| Scheduler.Scheduler.Block | kernel/src/sync/waker.rs:109-141 | Queues the caller on the waker and sets it Blocked with the waker's kind. |
| Scheduler.Scheduler.Exit | kernel/src/task/mod.rs:1028-1064 | Records the status and becomes Zombie with a live parent, Terminated otherwise. |
| Scheduler.Scheduler.WaitChild | kernel/src/task/mod.rs:1073-1091 | The four outcomes of wait, with the child unlinked and Terminated when collected. |
| Scheduler.Scheduler.WaitAny | kernel/src/task/syscall.rs:285-312 | The loop over the children computes the state machine's scan. |
| Scheduler.Scheduler.Waitpid | kernel/src/task/syscall.rs:275-353 | Both branches of sys_waitpid compute the state machine's step. |
| Scheduler.Scheduler.Run | kernel/src/sched/scheduler.rs:154-269 | The loop on the real queues ends and computes the state machine's run with all its outcomes. |
| Scheduler.Scheduler.GetAllTaskIds | kernel/src/sched/scheduler.rs:442-463 | Lists the ready, then the blocked, then the zombie queues of all CPUs. |
| AddressSpace.FindCorrect | kernel/src/vm/manager.rs:290-304 | The ordered lookup finds the one mapping that contains an address, and nothing exactly when there is none. |
| AddressSpace.AddAcceptsIff | kernel/src/vm/manager.rs:160-193 | Looking at two neighbours is enough: an aligned mapping is accepted if and only if it is disjoint from every existing one. |
| AddressSpace.StrictMeansOverlap | kernel/src/vm/manager.rs:172-184 | On page-aligned mappings the strict comparisons of inclusive ends are exactly overlap. |
| AddressSpace.AddMeaning | kernel/src/vm/manager.rs:160-193 | Adding a disjoint mapping extends the flat function by exactly its range. |
| AddressSpace.RemoveMeaning | kernel/src/vm/manager.rs:204-222 | Removing a mapping forgets exactly its range. |
| FixedInsert.InsertedMeaning | kernel/src/vm/manager.rs:517-638 | After a fixed insert every address of the new range has the new mapping's cell and every other address its old one, whatever was cut; the result is well formed. |
| FixedInsert.OverwrittenExact | kernel/src/vm/manager.rs:517-638 | The returned pieces cover exactly the old mapped addresses inside the new range and keep their old translations. |
| FixedInsert.InsertedTotal | kernel/src/vm/manager.rs:517-638 | Mapped bytes are conserved: old total plus new range equals new total plus the returned pieces. |
| FixedInsert.PiecesWf | kernel/src/vm/manager.rs:561-607 | The parts kept of a cut mapping are aligned restrictions of it outside the new range and cover all of it there. |
| Coalesce.CoalescedKeeps | kernel/src/vm/manager.rs:672-733 | Coalescing keeps every address's translation, permissions and sharing, the total size and the gap count, and lowers the number of mappings by the number of merges. |
| Coalesce.PassKeeps | kernel/src/vm/manager.rs:672-733 | One pass over an ascending list of mappings keeps order, size and gaps. |
| Coalesce.TotalIsListed | kernel/src/vm/manager.rs:645-665 | The size counted in address order is the size of the address space. |
| Coalesce.NextFits | kernel/src/vm/manager.rs:681-685 | end + 1 does not overflow on a mapping with a successor. |
| FirstFit.MaskClears | kernel/src/vm/manager.rs:464-470 | Clearing the bits below a power of two rounds down to a multiple. |
| FirstFit.FindUnmappedIs | kernel/src/vm/manager.rs:464-492 | First fit is sound, lowest and complete for every power-of-two alignment; no result means no free range ends at or below the limit. |
| FirstFit.LimitPassedIff | kernel/src/vm/manager.rs:464-492 | A found range ends beyond the 2 GB limit if and only if no aligned range from the base on is free below the limit but one is free below some mapping. |
| FirstFit.PageFitExact | kernel/src/vm/manager.rs:464-492 | With page alignment the same holds for the size as requested. |
| FirstFit.LimitExample | kernel/src/vm/manager.rs:464-492 | With only a stack mapped high up, a range beyond the limit is granted. |
| VmManager.VirtualMemoryManager.SearchMemoryMap | kernel/src/vm/manager.rs:267-281 | Cache hit or miss, the answer is the mapping that contains the address, or nothing exactly when there is none. |
| VmManager.VirtualMemoryManager.TranslateVaddr | kernel/src/vm/manager.rs:427-438 | Translation is the flat function. |
| VmManager.VirtualMemoryManager.AddMemoryMap | kernel/src/vm/manager.rs:160-193 | Accepted exactly when aligned and disjoint, whatever the physical size; the cache is cleared, and with equal sizes the cache and page-table invariants survive. |
| VmManager.VirtualMemoryManager.FindWithCacheUpdate | kernel/src/vm/manager.rs:330-348 | Finds the containing mapping and leaves a cache entry that names a current mapping. |
| VmManager.VirtualMemoryManager.RemoveByAddr | kernel/src/vm/manager.rs:204-222 | Removes the containing mapping, its cache entry and exactly its pages from the page table. |
| VmManager.VirtualMemoryManager.UnmapRange | kernel/src/vm/manager.rs:403-417 | Exactly the pages the loop reaches leave the page table, for a page-aligned start exactly those of the range. |
| VmManager.UnmapsWholeIff | kernel/src/vm/manager.rs:403-417 | All pages that meet a range are unmapped if and only if the range does not reach into one page more than its size rounds up to. |
| VmManager.UnmapsShortExample | kernel/src/vm/manager.rs:403-417 | A range of three bytes of which one page is missed. |
| VmManager.VirtualMemoryManager.LazyMapPage | kernel/src/vm/manager.rs:374-394 | Succeeds exactly on mapped addresses with a root table and enters what the mapping says. |
| VmManager.VirtualMemoryManager.AddMemoryMapFixed | kernel/src/vm/manager.rs:517-638 | The in-place cutting, unmapping and re-adding compute the fixed insert and its returned pieces; with equal sizes the new range translates by the new mapping and all else as before. |
| VmManager.VirtualMemoryManager.CoalesceMemoryMaps | kernel/src/vm/manager.rs:672-733 | The in-place merge computes the coalesced address space and counts the merges. |
| VmManager.VirtualMemoryManager.GetMemoryStats | kernel/src/vm/manager.rs:645-665 | Counts mappings, bytes and gaps. |
| VmManager.VirtualMemoryManager.FindUnmappedArea | kernel/src/vm/manager.rs:464-492 | The search loop computes first fit. |
| VmManager.InsertNoStale | kernel/src/vm/manager.rs:618-635 | Unmapping the overwritten pieces is enough for a fixed insert to leave no stale page-table entry. |
| VmManager.CoalesceNoStale | kernel/src/vm/manager.rs:672-733 | Coalescing needs no unmapping. |
| VmManager.PerformKeeps | kernel/src/vm/manager.rs:160-733 | Every operation keeps page-table entries inside current mappings and in agreement with them. |
| VmManager.After | kernel/src/vm/manager.rs:160-733 | Over every run of adds, fixed adds, removals, coalescings and faults no page-table entry is ever stale. |
| FreePages.FreedMeaning | kernel/src/task/mod.rs:519-589 | For any count: the freed pages end unmapped, addresses below keep their translation, and an address above is lost exactly when its mapping starts before the last freed page. |
| FreePages.FreesExactlyIff | kernel/src/task/mod.rs:519-589 | Exactly the requested pages go if and only if no mapping reaches over the last two of several freed pages and beyond. |
| FreePages.TailLostExample | kernel/src/task/mod.rs:519-589 | A four-page mapping that loses all pages when two are freed. |
| Heap.BrkExact | kernel/src/task/mod.rs:424-458 | One set_brk at or above the initial break fails exactly below the text size, never panics, maps exactly up to the rounded break, keeps the accounting and every translation that stays. |
| Heap.HeapExact | kernel/src/task/mod.rs:424-458 | After any sequence of set_brk values in an initially unmapped region the mapped heap is exactly the pages up to the rounded break, data_size has moved by exactly that much, and no call panics. |
| Heap.HeapKeeps | kernel/src/task/mod.rs:424-458 | Over any part of such a sequence an address below every rounded break keeps its translation, permissions and sharing. |
| Heap.GrowShrink | kernel/src/task/mod.rs:424-458 | Growing and shrinking back restores every translation and data_size. |
| Heap.ChildBreak | kernel/src/task/mod.rs:410-415 | A clone's default break rounds up to its parent's break although brk is not copied. |
| TaskMemory.TaskMemory.AllocatePages | kernel/src/task/mod.rs:477-511 | Refuses exactly unaligned addresses, panics exactly on overlap, otherwise adds the mapping. |
| TaskMemory.TaskMemory.FreePages | kernel/src/task/mod.rs:519-589 | The two loops compute the freed address space and leave no page-table entry of the range. |
| TaskMemory.TaskMemory.FreeDataPages | kernel/src/task/mod.rs:677-680 | Frees pages and lowers data_size, panicking on underflow. |
| TaskMemory.TaskMemory.AllocateDataPages | kernel/src/task/mod.rs:664-669 | Allocates pages and raises data_size exactly on success. |
| TaskMemory.TaskMemory.SetBreak | kernel/src/task/mod.rs:424-458 | Computes the specified outcome: done with the new state, invalid with nothing changed, or a panic. |
| Fork.ForkedMeaning | kernel/src/task/mod.rs:897-968 | The clone has the same virtual domain, permissions and sharing; shared addresses keep their frames. |
| Fork.ForkedPrivate | kernel/src/task/mod.rs:925-957 | A private address of the clone lies in the new frames of its mapping at the same offset. |
| Fork.SameContents | kernel/src/task/mod.rs:925-957 | Right after the clone both tasks read the same bytes everywhere, and the parent what it read before. |
| Fork.ChildApart | kernel/src/task/mod.rs:925-957 | No private address of the clone leads where any address of the parent leads. |
| Fork.ParentApartIff | kernel/src/task/mod.rs:897-968 | The parent's private addresses are apart from the clone's if and only if the parent's private and shared frames do not alias. |
| Fork.ForkIsolates | kernel/src/task/mod.rs:897-968 | Under every interleaving of stores each task reads what it would read had the other made none of its private stores. |
| Fork.AliasExample | kernel/src/task/mod.rs:897-968 | A parent with one frame mapped privately and shared, which the manager accepts: the clone reads a private store of the parent. |
| Fork.SharedSeen | kernel/src/task/mod.rs:905-924 | A store to a shared address is read by both. |
| CloneMemory.CopyPages | kernel/src/task/mod.rs:945-957 | The page-by-page copy moves exactly the bytes of the range and nothing else. |
| CloneMemory.CloneMaps | kernel/src/task/mod.rs:897-968 | The copy of an address space never fails on overlap and produces the specified address space and memory contents. |
| Pipe.SharedPipe.constructor | kernel/src/ipc/pipe.rs:86-96 | An empty, open pipe without endpoints. |
| Pipe.SharedPipe.Register | kernel/src/ipc/pipe.rs:116-133 | A new or cloned endpoint is counted for each capability. |
| Pipe.SharedPipe.Read | kernel/src/ipc/pipe.rs:138-180 | Moves as many bytes as fit from the front of the buffer into the target, leaving the rest of both alone, and wakes the writers exactly when it took some; or fails with the specified error and changes nothing. |
| Pipe.SharedPipe.Write | kernel/src/ipc/pipe.rs:182-224 | Appends as many bytes as fit and wakes the readers exactly when it appended some, or fails with the specified error and changes nothing. |
| Pipe.SharedPipe.Drop | kernel/src/ipc/pipe.rs:300-315 | Uncounts the endpoint and closes the pipe when none is left. |
| PipeRuns.PipeConserves | kernel/src/ipc/pipe.rs:116-339 | Over every run: bytes read followed by the buffer are the bytes accepted while an endpoint lives, the buffer respects its bound, the counts are the live readers and writers, and the pipe is closed exactly when no endpoint is left. |
| PipeRuns.CountedDrop | kernel/src/ipc/pipe.rs:300-315 | The saturating decrement never saturates. |
| PipeRuns.ReaderTold | kernel/src/ipc/pipe.rs:138-180 | A live reader gets the next accepted bytes in order, end of file exactly when no writer is left and all is read, blocks exactly when all is read and a writer is left, and never sees Closed. |
| PipeRuns.WriterTold | kernel/src/ipc/pipe.rs:182-224 | A live writer gets BrokenPipe exactly when no reader is left, blocks exactly when the buffer is full, and otherwise has as much accepted as fits. |
| PipeRuns.NeverBothBlocked | kernel/src/ipc/pipe.rs:138-224 | A live reader and a live writer never both have to wait. |
| PipeRuns.WritersGone | kernel/src/ipc/pipe.rs:317-339 | Once no writer is left none appears again and nothing more is accepted. |
| PipeRuns.EofFinal | kernel/src/ipc/pipe.rs:138-180 | After an end of file every later read is answered with end of file and everything accepted has been delivered. |
| Events.DrainIsStableSort | kernel/src/ipc/event.rs:487-523 | Enqueueing some events and dequeueing as often yields their stable sort by descending priority, a permutation of them, and leaves the queue empty. |
| Events.StableUnique | kernel/src/ipc/event.rs:487-523 | There is only one stable sort, so the order is determined. |
| Events.DequeuedIs | kernel/src/ipc/event.rs:501-523 | dequeue takes the first event of the order and leaves the rest of it. |
| Events.FifoPerPriority | kernel/src/ipc/event.rs:487-523 | Over every run of enqueues and dequeues, within each priority what left followed by what is queued is what arrived. |
| Events.LeavesHighest | kernel/src/ipc/event.rs:501-523 | What leaves has the highest priority of all that is queued. |
| Events.TaskEventQueue.Enqueue | kernel/src/ipc/event.rs:488-498 | Appends to the event's bucket, keeps total_count the sum of the bucket lengths and reports whether the queue was empty. |
| Events.TaskEventQueue.Dequeue | kernel/src/ipc/event.rs:501-523 | Answers the first event of the order, or nothing exactly when the queue is empty. |
| Events.DeliverToTask | kernel/src/ipc/event.rs:1013-1043 | Drops what no filter matches, reports a missing target, refuses at the configured buffer size, which therefore bounds the queue, and otherwise enqueues. |
| EventPass.ProcessPendingEvents | kernel/src/task/mod.rs:1181-1234 | Nothing while events are disabled; otherwise the loop computes one pass of at most eight events, including what handlers enqueue meanwhile, and fails exactly when the last handler failed. |
| EventPass.PassStops | kernel/src/task/mod.rs:1181-1259 | A pass ends at the limit, with an empty queue, or with the first critical, failed or disabling event, and not before. |
| EventPass.PassConserves | kernel/src/task/mod.rs:1181-1234 | Whatever handlers enqueue, within each priority what a pass handed out followed by what is queued is what was queued followed by what arrived. |
| EventPass.PassIsPrefix | kernel/src/task/mod.rs:1181-1234 | When handlers enqueue nothing, a pass hands out a prefix of the priority order and leaves exactly the rest. |
| EventPass.PassIsPass | kernel/src/task/mod.rs:1181-1234 | That prefix has at most eight events, none after the first critical, failed or disabling one, and is no shorter than that. |
| EventPass.PassUnique | kernel/src/task/mod.rs:1181-1259 | The length of a pass is determined by the order and the handlers. |
| EventPass.PassLengthPass | kernel/src/task/mod.rs:1181-1259 | With handlers that succeed and leave events enabled, a pass stops at the first critical event or after eight. |
| EventPass.PassesProgress | kernel/src/task/mod.rs:1181-1234 | Repeated passes hand out the order piece by piece, the event at position i within i + 1 passes. |
| StackImage.WritesLand | kernel/src/abi/scarlet.rs:491-523 | Inside one mapping adjacent writes lay their bytes out contiguously, touch nothing else and do not fail. |
| StackImage.ImageLies | kernel/src/abi/scarlet.rs:407-488 | All writes lie one after the other from the new stack pointer on, so they are disjoint, and make up the image of the computed size. |
| StackSetup.SetupArguments | kernel/src/abi/scarlet.rs:407-488 | Computes exactly the specified writes and answers the new stack pointer and the argv address, or fails exactly when an address does not translate, with the earlier writes in memory. |
| StackSetup.ImageInMemory | kernel/src/abi/scarlet.rs:407-488 | In a stack mapped in one piece the set-up succeeds, all bytes lie in [new_sp, initial_sp), nothing else changes, and new_sp is 16-byte aligned if initial_sp is, as section 2.1 of the RISC-V ELF psABI asks. |
| StackDecode.ParseStringArray | kernel/src/library/std/string.rs:56-90 | The reading loop computes the specified result, including all its errors. |
| StackDecode.CStringToString | kernel/src/library/std/string.rs:14-36 | Refuses a null pointer, stops at the first NUL or the length limit, and refuses what is not valid UTF-8. |
| StackDecode.ArrayReads | kernel/src/library/std/string.rs:56-90 | Reading a written array answers its strings one by one, each cut to the limit, up to the first that is not valid UTF-8 then or is one too many. |
| StackDecode.AnswerIs | kernel/src/library/std/string.rs:56-90 | With valid strings that answer is every string cut to the limit, and a refusal exactly of arrays with too many. |
| StackDecode.ImageReadsBack | kernel/src/abi/scarlet.rs:407-488 | For NUL-free strings in a stack mapped in one piece, argc and the kernel's own reader at the argv and envp addresses give back every argument and environment string. |
| StackDecode.PrefixesAll | kernel/src/library/std/string.rs:14-36 | Strings within the length limit come back unchanged. |

## Left out

- Context switching, trap frames, CSR and SBI access, ASIDs and the Sv48 page-table code: the page table is an abstract map from pages to frames and permissions.
- `schedule` beyond the choice made by `run`, time slices, timers, `sleep`, ABI zones, the VFS, handle tables and ELF loading.
- A task that exits while its parent is missing returns from `exit` and goes on executing until the next tick; the model lets only Ready and Running tasks act.
- `Waker::clear_queue`, `memmap_iter_mut`, `get_memory_map_by_addr_mut`, `search_memory_map_mut`: they hand out or drop state the invariants rely on.
- `remove_all_memory_maps` and `restore_memory_maps`: they leave the page table to their caller.
- Mappings whose virtual and physical areas differ in size: adding and fixed insertion are specified for them, but the meaning of an address space that holds one is not, since every builder in the kernel makes equal sizes. Areas that run backwards make `size()` panic and are excluded.
- Managed pages and map owners: page ownership is left to the allocator, and coalescing does not compare owners.
- A physical area that ends at the top of the physical address space would overflow the comparison in `can_merge_memory_maps`; the model compares unbounded integers there.
- Fork.ForkIsolates: takes from the allocator that the frames of a clone are aligned, fresh and disjoint.
- CloneMemory.CloneMaps: covers user tasks without the Vm flag; registers, ABI zones, file handles and the file-system manager of a clone are not modelled.
- Pipe.SharedPipe.Read: reports that it would block instead of waiting and retrying; the kernel waits with the pipe's lock held, and dropping an endpoint wakes nobody, so waiting inside a pipe call is not modelled.
- Pipe.SharedPipe.Write: the same.
- EventPass.ProcessPendingEvents: what a handler does is a parameter: its result, whether events stay enabled, and the events it enqueues.
- StackDecode.CStringToString: whether bytes are valid UTF-8 is a parameter.
- TaskMemory.TaskMemory.FreePages: the release of managed pages in the same loop is not modelled.
- VmManager.VirtualMemoryManager.UnmapRange: does not model the overflow of rounding up the size of a range that spans all but one page of the address space.
- Event channels, groups and subscriptions, shared memory and device drivers.
