# Uno-OS kernel: verified models

A Dafny model of the hard parts of the Uno-OS RISC-V kernel, with proofs of what they promise.
Each component is one module:

- `SleepWakeup` (with `Resources` and `Pipe`): `proc_sleep` and `proc_wakeup` as an interleaved step
  system over any number of processes and objects, one spinlock for each. Semaphores, sleep locks and
  pipes are the objects slept on. The proofs cover every interleaving.
- `Calls`: what those calls have done by the time they return, over whole runs and from the steps that
  begin them.
- `ChildExit`: fork, wait and exit over process locks, again every interleaving.
- `Families`: what fork, wait and exit have done by the time they return, and who is whose parent, over
  whole runs.
- `Scheduler`: the HRRN scan with its lock hand-along, 64-bit charging as written, and starvation
  freedom over whole runs.
- `Virtio`: the split virtqueue driver against a device that follows section 2.6 of OASIS Virtio v1.1,
  with 16-bit and modulo-8 indices and completions in any order.
- `Requests`: what a disk request asks of the device and when its caller returns, from the arguments of
  `virtio_disk_rw`.
- `PageTable` and `Destroy`: the Sv39 macros, walk, map, unmap and recursive destruction (section 4.4
  of the RISC-V Privileged Architecture) as one flat map from page number to entry, and that map as what
  the hardware's own translation makes of the tables.
- `RegionChain` and `MmapNodes`: the coalescing chain of free mmap regions, first as a value, then as
  nodes of a fixed pool relinked in place.
- `UserArea`: `uvm_mmap` and `uvm_munmap` with both their halves, chain and page table kept in step.
- `Fork`: address-space copy and copy-on-write faults over the flat map, with isolation over runs.
- `BufCache`: the circular doubly linked LRU list of block buffers in front of a disk.
- `FileData`: multi-level block index over the block bitmap, as one flat byte array per file, seen
  through the inode in memory and through the one on the disk.
- `Pmem`: free lists and reference counts kept inside the pages.
- `Console`: the line discipline over three 32-bit indices.
- `Base` and `Words` hold shared vocabulary.

A module's in-place methods are proved against functions on values (or against an abstract state
such as a ghost list), and what the code promises is proved about those. A panic or failed assertion
of the kernel is an outcome value. Memory addresses of the mmap area are page numbers, with the
byte-level alignment and range checks at the entry points; a page table in `Fork` is the flat map
that `PageTable` proves it to be.

Some promises are false of the code as written. Each is stated with the exact condition under which
it holds, and with a run or an input that breaks it:

- `uvm_munmap` frees a node that stays linked exactly when the range starts where the last region ends.
- `uvm_munmap` accepts a range whose end lies past 2^64, unmaps nothing, and lists its pages in front of the
  area; the chain stays in order exactly when neither this nor the case before occurs.
- The double-indirect index stays inside `addrs` exactly for files that end within 778 blocks.
- A write that does not make the file longer is forgotten at the next reload of the inode, except where
  the inode on the disk already led to the block or the bytes were 0.
- `bitmap_unset` clears the bit after the one that was allocated; for the last block, the lowest bit of
  the buffer's reference count.
- An exit wakes the process that is then its parent if and only if the child was not handed to `proczero`
  after it had read its parent. Only over children handed over that late can `proczero` sleep in
  `proc_wait`; two runs show it, for a child that was still exiting then and for one that was a zombie
  already.
- Past 2^32 bytes a byte put into the pipe overwrites an unread one exactly when it comes less than 296
  bytes after a multiple of 2^32 and at least 296 bytes are unread; the first such byte is the one after
  the 2^32nd.
- A weight is 0 exactly when the charged time is positive and exceeds 256 times the sum of charged and
  waiting time modulo 2^56; the scheduler then finds a runnable process and chooses none exactly when
  this holds of every runnable one.
- A page goes back on its free list exactly when its holder left 1 in bytes 8 to 11; a page freed as it
  was handed out is lost, and a page that `handle_cow` copied away from is never listed again.

## Model

| member | source | states |
|---|---|---|
| Pipe.PutFifo | kernel/fs/pipe.c:74-75 | appending a byte keeps "received is a prefix of sent, and the ring's window holds the rest in order", while at most 2^32 bytes have been sent |
| Pipe.GetFifo | kernel/fs/pipe.c:99-104 | taking a byte keeps the same |
| Pipe.FillFacts | kernel/fs/pipe.c:60-76 | the write loop up to a full ring: bytes go in in order, it stops only when done or at 500 unread, and never changes the open flags |
| Pipe.DrainFacts | kernel/fs/pipe.c:97-105 | the read loop: at most len bytes, and it stops short only on an empty ring |
| Pipe.FillFifo | kernel/fs/pipe.c:60-76 | a whole uninterrupted write keeps the order |
| Pipe.DrainFifo | kernel/fs/pipe.c:97-105 | a whole read keeps the order |
| Pipe.PutInOrderIff | kernel/fs/pipe.c:74-75 | after any number of bytes, a byte put in leaves every unread byte where its reader will look if and only if it does not come less than 296 bytes past a multiple of 2^32 with 296 or more unread, or happens to equal the byte it lands on |
| Pipe.GetInOrder | kernel/fs/pipe.c:99-104 | taking a byte returns the one that was sent and keeps the others in their places, wrapped or not |
| Pipe.WrapBreaks | kernel/fs/pipe.c:75 | a state in order after 2^32 bytes with 296 unread, where the next byte destroys an unread one |
| Pipe.Ring.constructor | kernel/fs/pipe.c:16-23 | a new pipe is empty, open at both ends and in order |
| Pipe.Ring.WriteUntilFull | kernel/fs/pipe.c:60-76 | the loop over the array is the value-level fill, for any start position |
| Pipe.Ring.ReadUntilEmpty | kernel/fs/pipe.c:97-105 | the loop over the array is the value-level drain, and returns what it adds to the received bytes |
| Resources.CriticalKeeps | kernel/proc/proc.c:598-617 | every critical section of semaphore, sleep lock and pipe that ends a reason to sleep wakes exactly that address, and one that goes to sleep has a reason |
| SleepWakeup.InitInv | kernel/proc/proc.c:588-596 | the invariant holds at the start |
| SleepWakeup.StepKeeps | kernel/proc/proc.c:545-586 | every step of every process, hart and timer interrupt keeps the invariant |
| SleepWakeup.WakeTestMoves | kernel/proc/proc.c:575-585 | one turn of the wakeup loop: a sleeper on that address is made runnable before the loop passes it, and every other process stays exactly as it was |
| SleepWakeup.RunInv | kernel/proc/proc.c:545-586 | the invariant holds in every state of every run |
| SleepWakeup.NoLostWakeup | kernel/proc/proc.c:545-586 | in every reachable state with the object's lock free, whoever is asleep on it or committed to sleeping still has a reason to |
| SleepWakeup.SemaphoreSafe | kernel/proc/proc.c:598-617 | a semaphore's value is start plus ups minus completed waits, never negative, and nobody sleeps past a positive value |
| SleepWakeup.SleepLockSafe | kernel/lib/sleeplock.c:13-41 | at most one process holds a sleep lock, sleeplock_holding tells exactly which, nobody sleeps on a free one |
| SleepWakeup.PipeSafe | kernel/fs/pipe.c:51-125 | over all interleavings of readers, writers and both closes: received is a prefix of sent up to 2^32 bytes, at most 500 unread, and no end sleeps when it could go on |
| Calls.CriticalDoes | kernel/proc/proc.c:598-617 | one critical section carries out its call, or sleeps with exactly what is left of it still to do: nothing changed for a semaphore, a lock or an empty pipe, the bytes not yet put in for a full one |
| Calls.CallRun | kernel/proc/proc.c:545-586 | in every run, between a call and the next one of the same process, what the call still owes and what it has done make up what was asked |
| Calls.AcquireReturns | kernel/lib/sleeplock.c:13-22 | whoever called sleeplock_acquire is back in user code only with the lock |
| Calls.ReleaseReturns | kernel/lib/sleeplock.c:24-31 | whoever called sleeplock_release is back only without it |
| Calls.SemaphoreCounts | kernel/proc/proc.c:598-617 | a semaphore's value is the one at the start plus the sem_up calls carried out less the sem_wait calls carried out, counted from the steps that begin calls |
| Calls.WriteReturns | kernel/fs/pipe.c:51-80 | pipe_write returns with all of its bytes put in, once each and in order across all its sleeps; or with a first part of them when the read end is closed |
| Calls.ReadReturns | kernel/fs/pipe.c:83-108 | pipe_read returns with what it took in a single step: the smaller of the length asked for and what was unread, in a state with a byte unread or the write end closed |
| Calls.CloseReturns | kernel/fs/pipe.c:112-125 | pipe_close returns with its end closed |
| Calls.GetsOn | kernel/proc/proc.c:573-586 | outside its critical sections every piece of code of a call brings its end, its next critical section or its sleep nearer; a wakeup takes one turn for each process |
| Calls.SpaceRun | kernel/proc/proc.c:545-571 | in every reachable state sleep_space names what a process sleeps on from where it falls asleep until it is back, and is empty otherwise |
| Calls.SchedulerServes | kernel/proc/proc.c:490-538 | a hart takes a free process lock and gives it back without a trace, or runs the ready process behind it, which then holds its own lock |
| Calls.BeginsIff | kernel/proc/proc.c:598-617 | a process in user code can begin any call its object offers exactly when the object's spinlock is free, a release only of a lock it has acquired |
| Calls.NothingStuck | kernel/proc/proc.c:545-586 | in every reachable state a process in the middle of a call has a step, and one that moves it on, unless the lock it wants is taken |
| ChildExit.StepKeeps | kernel/proc/proc.c:349-446 | every step of fork, wait, exit, sleep and scheduling keeps the invariant |
| ChildExit.RunInv | kernel/proc/proc.c:349-446 | the invariant holds in every state of every run |
| ChildExit.NoLostExit | kernel/proc/proc.c:349-446 | while any process is asleep in proc_wait, none of its children is a zombie, except that proczero may sleep over children that an exiting parent handed to it after they had read who their parent is |
| ChildExit.WakesItsParent | kernel/proc/proc.c:425-440 | in every reachable state, from the read of its parent until it is a zombie, the process an exiting child wakes is its parent if and only if the child was not handed over late; if it was, its parent is proczero and it wakes another |
| ChildExit.LateBy | kernel/proc/proc.c:393-405 | a child is late after a step exactly when that step hands it over after its read of the parent, or it was late and has not been reaped |
| ChildExit.NoLateHandOver | kernel/proc/proc.c:393-405 | in a run without a late hand-over nothing is ever late, so no exit is lost |
| ChildExit.KinKeeps | kernel/proc/proc.c:349-446 | every step keeps: an unused slot has no parent, a process read as a child still is one when it is locked, proczero never exits |
| ChildExit.ZeroCanSleepPastExit | kernel/proc/proc.c:416-437 | the exception is real in two ways: an orphan that read its parent before being handed over wakes the old parent; a child that died under its own parent is handed over as a zombie while proczero sleeps |
| Families.FamilyRun | kernel/proc/proc.c:282-446 | in every run, for every process, where it stands fits the call it began last, and what that call has reaped and brought to life fits where it stands |
| Families.WaitReturns | kernel/proc/proc.c:349-389 | proc_wait returns with exactly one zombie child reaped in all its time, and none brought to life |
| Families.GivesUpWithoutChild | kernel/proc/proc.c:357-384 | proc_wait gives up only after it missed every slot since it began; a process other than proczero then had no child in all that time |
| Families.SleepsOverChild | kernel/proc/proc.c:357-387 | proc_wait sleeps only over a child: one met since it began, and for a process other than proczero one that is still there |
| Families.ForkReturns | kernel/proc/proc.c:282-331 | proc_fork returns with exactly the slot it took turned into a ready child of its caller |
| Families.ExitStays | kernel/proc/proc.c:416-446 | proc_exit never returns |
| Families.ParentKept | kernel/proc/proc.c:325-405 | a step changes a parent only by a birth from an unused slot, by the parent reaping a zombie, or by an exiting parent handing over to proczero |
| Families.ChildUntil | kernel/proc/proc.c:325-405 | a child stays its parent's child until the parent reaps it or hands it over in proc_exit |
| Families.NoOrphans | kernel/proc/proc.c:393-440 | if every parent was in use at the start, nobody's parent, proczero aside, is ever an unused slot or a zombie |
| Families.ZeroRoused | kernel/proc/proc.c:420-428 | an exiting process reads its parent only after proczero has been out of its sleep in proc_wait |
| Families.SpaceRun | kernel/proc/proc.c:545-571 | in every reachable state sleep_space names what a process sleeps on from where it falls asleep until it is back, and is empty otherwise |
| Families.SchedulerServes | kernel/proc/proc.c:490-538 | the scheduler takes a free process lock and gives it back without a trace, or runs the ready process behind it, which then holds its own lock |
| Families.BeginsIff | kernel/proc/proc.c:282-419 | from user code a wait can begin at any time, an exit unless the process is proczero, a fork exactly on an unused slot whose lock is free |
| Families.NothingStuck | kernel/proc/proc.c:349-446 | in every reachable state a process has a step, and one that moves it on, unless the lock it wants is taken, it is the scheduler's or its user's turn, it has no parent to read, or proc_wait has leaked its lock |
| Scheduler.WeightFloor | kernel/proc/proc.c:465-473 | below 2^56 the shift cannot wrap and every weight is at least 256 |
| Scheduler.WeightZeroIff | kernel/proc/proc.c:465-473 | a weight is 0 if and only if the charged time is positive and larger than 256 times the sum of charged and waiting time modulo 2^56 |
| Scheduler.NullChoiceIff | kernel/proc/proc.c:486-525 | `found` with no process chosen happens if and only if something is runnable and every runnable weight is 0 in that way |
| Scheduler.NullChoice | kernel/proc/proc.c:486-525 | a table with one slot on which the scan does so |
| Scheduler.Table.Scan | kernel/proc/proc.c:486-514 | the scan ends holding exactly the lock of the lowest-index runnable slot of maximal weight, or none, with all waiting times brought up to date |
| Scheduler.FoundMeansChosen | kernel/proc/proc.c:516-525 | it cannot happen while one runnable slot's charged and waiting time stay below 2^56 |
| Scheduler.RanTwice | kernel/proc/proc.c:335-342 | a dispatch ended by a timer tick charges its length twice |
| Scheduler.RoundFacts | kernel/proc/proc.c:490-535 | what one dispatch does to the slot picked, to a waiting slot and to the rest |
| Scheduler.BeatenBy | kernel/proc/proc.c:465-473 | once p has waited long enough, a slot that still beats it has been charged at most three times as much, floor division included |
| Scheduler.BudgetBound | kernel/proc/proc.c:490-535 | how often the others together can still be picked, from their charges |
| Scheduler.NeverPicked | kernel/proc/proc.c:476-542 | a run that never picks p is at most StarveBound dispatches long |
| Scheduler.NoStarvation | kernel/proc/proc.c:476-542 | in any longer run p is picked; the bound is a function of the tick, p's charge and the table size |
| Virtio.Alloc3Facts | kernel/dev/virtio.c:162-176 | three distinct descriptors that were free, or nothing when fewer than three are |
| Virtio.FreeWalkThree | kernel/dev/virtio.c:149-160 | freeing a three-descriptor chain frees exactly its members |
| Virtio.Descriptors.AllocDesc | kernel/dev/virtio.c:122-133 | the lowest free descriptor, taken |
| Virtio.Descriptors.FreeDesc | kernel/dev/virtio.c:136-146 | one descriptor freed, its address cleared |
| Virtio.Descriptors.FreeChain | kernel/dev/virtio.c:149-160 | the loop frees exactly the chain |
| Virtio.Descriptors.Alloc3Desc | kernel/dev/virtio.c:162-176 | the loop with its undo is the value-level allocation: three or none |
| Virtio.StepKeeps | kernel/dev/virtio.c:178-288 | every step of driver, device and interrupt handler keeps the invariant |
| Virtio.RunInv | kernel/dev/virtio.c:178-288 | the invariant holds in every state of every run |
| Virtio.ChainsSafe | kernel/dev/virtio.c:188-245 | in-flight requests own disjoint, intact chains that say what was asked; free descriptors plus three per request are 8 |
| Virtio.RingsSafe | kernel/dev/virtio.c:251-283 | no unread available-ring entry is overwritten, and the 16-bit and modulo-8 comparisons tell exactly whether something is pending, across every wrap |
| Virtio.CompletionsSafe | kernel/dev/virtio.c:273-284 | each completion is handled once, in order, and clears only the buffer that submitted it |
| Virtio.NothingStuck | kernel/dev/virtio.c:257-284 | a device, handler or finishing step is refused only when there is nothing for it to do |
| Requests.SubmitsIff | kernel/dev/virtio.c:186-197 | a request is taken up exactly when three descriptors are free and its buffer has none in flight; without three the caller sleeps |
| Requests.SubmitSays | kernel/dev/virtio.c:180-251 | a submitted request's descriptors, followed from its head, hold the header with the caller's direction and the 32-bit sector number, the caller's buffer, written by the device exactly for a read, and a status byte |
| Requests.RequestSays | kernel/dev/virtio.c:188-263 | from the call to its return the device finds exactly that |
| Requests.ReturnsOnce | kernel/dev/virtio.c:257-284 | virtio_disk_rw returns exactly when its buffer has been let go, and then the device has completed its request exactly once |
| Requests.DescriptorsConserved | kernel/dev/virtio.c:122-176 | free descriptors plus three for each call that has not returned are 8, in every run |
| Requests.FreeIsBlank | kernel/dev/virtio.c:136-160 | no free descriptor ever keeps the address of a request that is over |
| Requests.TakenInOrder | kernel/dev/virtio.c:247-254 | the device's n-th taking starts the n-th submission |
| Requests.HandledInOrder | kernel/dev/virtio.c:273-284 | the handler's n-th iteration lets go the buffer that waits for the n-th completed head |
| PageTable.MakePteFacts | include/mem/vmem.h:51-69 | address and flags come back out of an entry built from them |
| PageTable.VpnDigits | include/mem/vmem.h:47-48 | the three indices are the base-512 digits of the page number |
| PageTable.SlotsDistinct | kernel/mem/kvm.c:33-58 | distinct pages reach distinct slots |
| PageTable.WriteLow | kernel/mem/kvm.c:84 | writing a page's slot changes the flat map at that page and nowhere else |
| PageTable.GrownOk | kernel/mem/kvm.c:46-54 | hanging a new table page in keeps the tree and the whole flat map |
| PageTable.AddressSpace.constructor | kernel/mem/kvm.c:116-117 | a zeroed root maps nothing |
| PageTable.AddressSpace.GetPte | kernel/mem/kvm.c:23-59 | finds the slot of the page, allocating tables only when asked, and never changes the flat map |
| PageTable.AddressSpace.MapPages | kernel/mem/kvm.c:65-87 | for any 64-bit arguments, exactly the pages of the range get consecutive frames with the given permissions; bad arguments, remapping and lack of pages are told apart |
| PageTable.AddressSpace.UnmapPages | kernel/mem/kvm.c:91-110 | for any 64-bit arguments, succeeds exactly when every page of the range is a mapped leaf; clears exactly those and frees their frames in order |
| PageTable.WrappedRange | kernel/mem/kvm.c:95-98 | a range whose end wraps is accepted exactly when what lies behind the wrap ends below VA_MAX, and then has no page |
| PageTable.AddressSpace.MapThenUnmap | kernel/mem/kvm.c:65-110 | unmapping what was just mapped restores the flat map and frees exactly the mapped frames |
| PageTable.TranslatesFlat | kernel/mem/kvm.c:23-59 | Sv39 translation as the hardware does it, started at the root, takes every address through the flat map's entry of its page |
| PageTable.MappedTranslates | kernel/mem/kvm.c:65-87 | after vm_mappages the hardware takes every address of the range to its place behind `pa` with the permissions asked for, and every page outside as before |
| PageTable.ClearedFaults | kernel/mem/kvm.c:91-110 | after vm_unmappages every address of the range faults and every other page is as before |
| Destroy.Destroy | kernel/mem/uvm.c:77-96 | the recursion, junk-filling pages as it frees them, makes exactly the calls of the log read off the tree at the start |
| Destroy.RootLog | kernel/mem/uvm.c:83-93 | the user-region calls are the frames of the mapped pages in ascending page order |
| Destroy.TablesOnce | kernel/mem/uvm.c:88-95 | no table page is freed twice |
| Destroy.FreesExactly | kernel/mem/uvm.c:83-95 | the kernel-region calls are exactly the tables some walk visits |
| Destroy.DestroyExact | kernel/mem/uvm.c:77-96 | with distinct leaf frames each mapped frame and each table is freed exactly once, and never the trapframe or the trampoline |
| RegionChain.RunInOne | kernel/mem/uvm.c:135-145 | a run of free pages lies in one region, because touching regions are merged |
| RegionChain.CutKeeps | kernel/mem/uvm.c:152-190 | all four ways of cutting a range out of a region leave a sorted, coalesced chain without exactly those pages |
| RegionChain.MmapKeeps | kernel/mem/uvm.c:119-205 | a mapping takes exactly the requested number of pages, all free before |
| RegionChain.MmapAtIff | kernel/mem/uvm.c:138-156 | a request for a place succeeds exactly when all its pages are free |
| RegionChain.MmapLowest | kernel/mem/uvm.c:138-156 | a request at address 0 gets the lowest run of free pages, and fails exactly when there is none |
| RegionChain.TailMergeIff | kernel/mem/uvm.c:272-281 | the faulty tail branch is taken exactly when the range starts where the last region ends |
| RegionChain.MunmapKeeps | kernel/mem/uvm.c:221-281 | for any range the checks accept, unmapping adds exactly the given pages, and leaves an ordered, coalesced chain if and only if the end does not wrap and the tail branch is not taken behind a real region |
| RegionChain.MunmapWraps | kernel/mem/uvm.c:241-263 | a range whose end wraps is put in front of the whole chain, which is then out of order |
| RegionChain.TailMergeOverlaps | kernel/mem/uvm.c:272-281 | mapping and unmapping the last two pages of a fresh area lists its last region twice over |
| RegionChain.RunKeeps | kernel/mem/uvm.c:119-289 | after any run outside the tail branch and without a wrapping range the chain is in order and its pages are exactly those of the area the run does not hold |
| MmapNodes.Nodes.constructor | kernel/mem/mmap.c:23-35 | every node but list_head is in the pool |
| MmapNodes.Nodes.RegionAlloc | kernel/mem/mmap.c:40-58 | the first pool node leaves the pool, chains stay, and only an empty pool fails |
| MmapNodes.Nodes.RegionFree | kernel/mem/mmap.c:61-72 | the node is first in the pool; ownership stays exclusive if it was in no list |
| MmapNodes.Nodes.UvmMmap | kernel/mem/uvm.c:119-190 | in place, chain p becomes the value-level result and no other chain changes; every panic is told apart, and lack of a node can only stop a mapping that splits a region; every node stays in exactly one list and none is lost |
| MmapNodes.Nodes.SplitRegion | kernel/mem/uvm.c:159-172 | a request in the middle leaves two regions, the rear one on a new node |
| MmapNodes.Nodes.UvmMunmap | kernel/mem/uvm.c:221-281 | in place, for any address and any pages, chain p becomes the value-level result; with pages that were taken, everything stays in order if and only if neither the tail branch is taken nor the end reaches 2^64; nodes are in exactly one list afterwards if and only if the tail branch was not taken; if it was, the next pool node is still linked in the chain |
| MmapNodes.TailMergeRun | kernel/mem/uvm.c:272-281 | a run from a fresh pool that ends with a node both first in the pool and linked in a chain |
| MmapNodes.Nodes.SysMmap | kernel/syscall/sysproc.c:99-127 | the address returned, found by a scan of its own, is where uvm_mmap took the pages; with address 0 it never panics for lack of room; no node is lost |
| MmapNodes.Nodes.FirstChain | kernel/proc/proc.c:157-160 | the first chain is the special region and one region for the whole area |
| MmapNodes.Nodes.CopyChain | kernel/proc/proc.c:303-318 | the child's chain has the parent's regions on the first nodes of the pool, which loses exactly as many as the parent's chain has; it fails exactly when the pool is too small |
| MmapNodes.Nodes.FreeChain | kernel/proc/proc.c:228-234 | every node of the chain is back in the pool, none is lost, other chains stay |
| UserArea.Area.constructor | kernel/proc/proc.c:157-160 | with a first chain and nothing mapped in the area, chain and page table are in step |
| UserArea.Area.MapFresh | kernel/mem/uvm.c:192-197 | the loop of one vm_mappages per page gives the pages the next frames in order, is never refused for a page mapped already, and stops only for lack of frames or table pages |
| UserArea.Area.Mmap | kernel/mem/uvm.c:119-218 | the whole of uvm_mmap keeps every page of the area either free in the chain and unmapped, or taken and mapped, and extends the history by the request |
| UserArea.Area.Munmap | kernel/mem/uvm.c:221-289 | the whole of uvm_munmap: all outcomes told apart exactly; a range that ends by 2^64 succeeds exactly on mapped pages, clears those, frees their frames and keeps chain and page table in step, tail branch included; one that ends past 2^64 succeeds without unmapping anything and leaves the chain out of order |
| UserArea.WrapRun | kernel/syscall/sysproc.c:133-141 | a run from a fresh area that does so |
| UserArea.LeavesIff | kernel/mem/kvm.c:97-109 | with chain and page table in step, a range can be unmapped exactly when none of it is listed as free |
| UserArea.EntryIffHeld | kernel/mem/uvm.c:119-289 | after any run of map and unmap requests a page of the area has a valid entry if and only if some request took it and none gave it back since, if and only if the chain does not list it |
| UserArea.ForkCopies | kernel/proc/proc.c:301 | a fork after such a run gives the child heap, stack and exactly the pages the run holds, those with the bytes of the frames the parent's page table maps them to; only a hole in heap or stack can stop it for a missing page |
| Fork.CopyPageKeeps | kernel/mem/uvm.c:16-34 | copying one page adds it to the child with the parent's bytes on a frame of its own, changes nobody's view, gives the child the parent's rights, leaves the parent its own, and makes both fault before they store to the page; every other entry is as it was |
| Fork.GapsAreMapped | kernel/mem/uvm.c:109-114 | with page table and chain in step, the gaps walked in the chain are exactly the pages of the area mapped in the parent |
| Fork.SegmentsAre | kernel/mem/uvm.c:102-106 | the pages copied for heap and stack are those with a byte below heap_top, from the second page on, and the ustack_pages pages below the stack's top |
| Fork.Memory.CopyRange | kernel/mem/uvm.c:10-35 | exactly the range appears in the child, with the parent's bytes and rights; an unmapped parent page, a page already in the child and lack of frames are told apart |
| Fork.Memory.UvmCopyPgtbl | kernel/mem/uvm.c:99-115 | the child gets heap, stack and all pages of the area mapped in the parent, with the parent's bytes and rights, nothing else changes for anyone, and the child's page table is in step with the copied chain; it stops for a page missing in the parent only in heap or stack, and for a page already there only where two of the three overlap or the child was not empty |
| Fork.Memory.IsCowPage | kernel/trap/trap_user.c:26-35 | -1 past the top, 1 exactly for a mapped page marked copy-on-write |
| Fork.HandleCowKeeps | kernel/trap/trap_user.c:38-76 | a resolved fault leaves the page writable, its other flags, every process's view and every other entry as they were; the frame copied from is on nobody's books afterwards |
| Fork.LostStays | kernel/trap/trap_user.c:38-76 | in every run of stores and faults a frame on nobody's books stays off the list |
| Fork.Memory.ResolveCow | kernel/trap/trap_user.c:38-76 | the method, with the reference count read from page contents, is that function |
| Fork.StepIsolated | kernel/trap/trap_user.c:38-76 | a store or fault changes one byte of one page of one process, or nothing |
| Fork.RightsKept | kernel/trap/trap_user.c:38-76 | no store or fault gives a process a right or takes one away |
| Fork.StoreGoesIff | kernel/trap/trap_user.c:136-142 | a store goes through if and only if the page is mapped and may be stored to, and, where it faults, a frame is left or the page's count reads 1 |
| Fork.RunIsolated | kernel/trap/trap_user.c:38-76 | in every run of stores and faults each page reads as private memory would |
| Fork.ForkIsolates | kernel/mem/uvm.c:99-115 | after a fork and any such run, child and parent each see the bytes at the fork plus their own stores only, have the parent's rights to the page, and may store to it exactly if the parent could, as long as there is a frame for the fault |
| BufCache.DetachKeeps | kernel/fs/buf.c:30-33 | taking a node off the circular list leaves a circular list without it |
| BufCache.FirstKeeps | kernel/fs/buf.c:36-40 | putting a node first keeps the circle |
| BufCache.LastKeeps | kernel/fs/buf.c:41-46 | putting a node last keeps the circle |
| BufCache.Cache.InsertHead | kernel/fs/buf.c:27-47 | the node moves to the front or the back, the others keep their order |
| BufCache.Cache.constructor | kernel/fs/buf.c:50-62 | all 64 buffers are free, on the list once each, last index first |
| BufCache.Cache.Search | kernel/fs/buf.c:72-105 | the two loops find the block if it is cached, compare no node's block number twice, and otherwise name the oldest free buffer |
| BufCache.OldestIs | kernel/fs/buf.c:91 | that buffer is the least recently released of the free ones |
| BufCache.Cache.BufRead | kernel/fs/buf.c:69-120 | a hit is raised and claimed, a miss evicts the least recently released free buffer, a locked result holds the current disk contents, and it fails exactly when all buffers are referenced and none has the block |
| BufCache.Cache.Acquire | kernel/fs/buf.c:85-102 | a waiting reader finds the current disk contents when it gets the lock |
| BufCache.Cache.BufWrite | kernel/fs/buf.c:122-127 | the disk block becomes the buffer's data; refused exactly for a caller without the lock |
| BufCache.Cache.Unlock | kernel/fs/buf.c:130-134 | the first half of buf_release gives up the buffer's lock, refused exactly for a caller without it; the cache still agrees with the disk exactly when the holder had written its changes |
| BufCache.Cache.Deref | kernel/fs/buf.c:136-144 | the second half, whatever others did in between, drops the reference, and with the last one the buffer goes to the tail |
| BufCache.Cache.BufRelease | kernel/fs/buf.c:130-145 | the two halves in a row |
| FileData.FillKeeps | kernel/fs/inode.c:229-234 | a fresh block in an empty slot keeps every slot naming a block of the right role |
| FileData.WalkRole | kernel/fs/inode.c:203-288 | a walk ends at a block that belongs to exactly that file and block number, so no two walks share a block |
| FileData.LocateFill | kernel/fs/inode.c:203-288 | filling an empty slot adds the block whose walk ends there and moves no other block of any file |
| FileData.WalkIndexed | kernel/fs/inode.c:203-288 | the walk finds the number that the 32-bit words of inode and index blocks hold for the block |
| FileData.TopIndexIn | kernel/fs/inode.c:252-254 | the top index as the code parses it is inside addrs exactly for bn < 778 |
| FileData.ReachedIff | kernel/fs/inode.c:249-260 | all blocks of a file that ends at `end` are reachable exactly when it ends within 778 * 1024 bytes |
| FileData.Files.LocateBlock | kernel/fs/inode.c:203-304 | for every block number: the number of the block, allocated now if it was missing and then found where the words of inode and index blocks say, without changing what any file reads; an index past addrs exactly for 778 <= bn < 66058, the panic exactly above |
| FileData.Files.BitmapAllocBlock | kernel/fs/bitmap.c:11-53 | the first clear bit is set, and it fails exactly when there is none |
| FileData.Files.BitmapFreeBlock | kernel/fs/bitmap.c:56-72 | the bit after the block's own is cleared, the block's own stays; for the last block the lowest bit of the reference count behind the data is cleared instead |
| FileData.AllocFreeAlloc | kernel/fs/bitmap.c:47-72 | allocate, free, allocate: the freed block stays marked and the one after it is handed out, in use or not |
| FileData.Files.ReadData | kernel/fs/inode.c:309-347 | after reloading the inode, returns exactly the bytes the inode on the disk leads to, holes as 0, clipped at the size; fails exactly past the size or on wrap-around; no file reads differently afterwards |
| FileData.LagView | kernel/fs/inode.c:35-55 | a byte is seen through an older copy of the inode exactly when the slot its walk starts from was set there already |
| FileData.Files.WriteData | kernel/fs/inode.c:352-402 | at any offset, the contents in memory are the old ones overwritten, a gap read as 0; the inode is written back exactly when the file grew, and what the disk then has is given byte by byte; every other file is unchanged; a file with all its slots on the disk keeps them |
| FileData.WriteThenRead | kernel/fs/inode.c:309-402 | a write followed by a read gives the bytes back if and only if the file grew or every byte but zeros went to a block the inode on the disk led to before |
| FileData.LostWrite | kernel/fs/inode.c:309-402 | a run in which a byte written is read back as 0 |
| FileData.WriteDone | kernel/fs/inode.c:352-402 | a write carried to its end leaves the promised bytes, zeros past the size, and other files as they were |
| Pmem.Region.constructor | kernel/mem/pmem.c:59-74 | all pages are on the list once, and `allocable` exceeds its length by the preset |
| Pmem.Region.Alloc | kernel/mem/pmem.c:79-106 | the first page of the list leaves it all zero, was held by nobody, and fails exactly on an empty list |
| Pmem.Region.Free | kernel/mem/pmem.c:110-135 | a held page goes back on the list exactly when bytes 8 to 11 read 1, and is then all ones behind its link; bad addresses change nothing |
| Pmem.Region.CountIn | kernel/mem/pmem.c:137-147 | one page of free_range joins the list |
| Pmem.ListPush | kernel/mem/pmem.c:130-131 | writing the link into a page off the list keeps a list without repetition |
| Pmem.AllocFreeLoses | kernel/mem/pmem.c:79-135 | a page freed just as it was handed out is on no list and in nobody's hands |
| Console.CommittedStays | kernel/dev/console.c:114-146 | no key and no read changes a committed character, and the indices stay in order within 64 |
| Console.KeyEffect | kernel/dev/console.c:114-146 | backspace and delete take back the last uncommitted character and nothing else; any other key but NUL is stored while fewer than 64 wait, a carriage return as a newline; a newline, an end of file or the 64th waiting character commits |
| Console.TypingEdits | kernel/dev/console.c:114-146 | keys typed with room for them leave what a typist means, each backspace taking back one character |
| Console.ReturnCommits | kernel/dev/console.c:127-143 | and a return key commits that as one line |
| Console.RunInOrder | kernel/dev/console.c:42-149 | in any run of keys and reads, from any line in order, readers together get the committed characters once each, in order, committed characters stay, and a full buffer is committed |
| Console.ReadPastEof | kernel/dev/console.c:42-83 | of two reads in a row the first returns the text before an end of file and leaves it, the second returns nothing and consumes it |
| Console.Cons.ConsoleIntr | kernel/dev/console.c:110-149 | the 32-bit indices and ring follow the line on unbounded positions |
| Console.Cons.ConsoleRead | kernel/dev/console.c:42-83 | a sole reader gets the next committed characters up to a newline or an end of file, and is left waiting only when it has used up all that was committed; the line itself goes through exactly the keys that arrived while it slept, in order, and its own turns |

## Left out

- Spinlocks are atomic acquire and release steps; their implementation, memory ordering and interrupt masking are not modelled.
- Deadlock freedom: the scheduler locks processes in index order, `proc_wait` parent before child.
- `sem_alloc` and `sem_free`, overflow of the semaphore's `int`, and freeing the pipe page in `pipe_close`.
- SleepWakeup.NoLostWakeup: safety only; that a runnable process is dispatched again is the subject of `Scheduler`.
- SleepWakeup.PipeSafe: a reader whose own read end was closed under it may sleep on, as in the code; a failed user-memory copy inside a pipe call is not modelled.
- SleepWakeup: the sleeps on the disk driver's free descriptors and buffers (`kernel/dev/virtio.c:196`, `:260`), on the console's read index and on the timer's ticks; `Virtio` and `Console` take those waits as given.
- ChildExit.NoLostExit: a wait without children ends in a state that keeps the lock, as the code returns without releasing it.
- ChildExit models exit states, process identifiers and file tables not at all; the copy of the exit state to the user is left out.
- Scheduler.NoStarvation: one hart, a fixed set of runnable processes, every dispatch ended by a later timer tick, and no 64-bit overflow.
- Scheduler.Table.Scan: locks other harts hold are not part of the scan; acquiring one simply takes it.
- Virtio: the write of a ring entry and the increment of the index are one step, the barrier between them is left out; feature negotiation and status bytes other than success are left out.
- PageTable: TLB flushes, superpages (the kernel makes none), access and dirty bits, and the kernel's own mappings.
- MmapNodes.Nodes.UvmMmap: `npages` is below 2^20, as the system calls guarantee; the page-table half is in `UserArea`.
- UserArea: one process; the memory after a panic; `uvm_heap_grow` and stack growth, which check no upper bound, so that a heap grown into the area is not part of its runs; what later calls do with a chain out of order. Permissions are those of a leaf.
- Fork: trapframe, file descriptors and the kernel pages for the child's tables; `handle_page_fault`, which adds zero pages; stores by the kernel through `uvm_copyout`.
- Fork.Memory.ResolveCow: the aligned address check that returns NULL is left to the caller, which rounds down.
- BufCache: the caller's view of `buf_read` as one atomic step, because the code reads the list's tail before taking the lock and publishes a block number before the sleep lock is held; overflow of the 32-bit reference count; block number 0xFFFFFFFF, which no caller asks for.
- FileData: every free data block is zero, as in a fresh image in which no block was ever freed; `bitmap_alloc_block` does not clear the block it hands out, so that after a free a hole would read as what was there before.
- FileData: inodes are records, their packing into inode blocks and the bits' packing into bytes are left out; blocks go through the cache as reads and writes of the disk.
- FileData.Files.WriteData: after an index past `addrs` or with a full bitmap, where the code goes on with what it finds there or panics, only the stop and its cause are stated.
- FileData.Files.ReadData: the user-memory path; `uvm_copyout` compares a physical with a virtual address beyond one page.
- Freeing files (`inode_free_data`), the inode cache, directories and paths.
- Pmem: the two regions share no state and are two instances; `pmem_inc_ref` and `pmem_dec_ref` are writes to a held page.
- Console.Cons.ConsoleRead: other readers are covered by the run lemma; echo to the UART and `console_write` are left out.
- UART, PLIC, CLINT, CSR access, boot, assembly, ELF loading, mkfs, printing, system-call dispatch and the user library.
