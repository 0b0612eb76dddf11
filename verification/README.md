# RT-Thread kernel and finsh in Dafny

A model of the core of the RT-Thread 3.1 kernel and of its finsh expression
compiler, with proofs of what they promise. The target is 32 bits wide with
RT_ALIGN_SIZE 4 and 4096-byte pages; integer widths and wrap-around are written
out where they matter. Each region that runs with interrupts disabled is one
atomic step, and properties over interleavings are proved by induction over all
finite runs of such steps.

- **finsh** (`FinshLang`, `FinshArith`, `FinshVm`, `FinshCompiler`,
  `FinshCorrect`): the operators in numbers and bits, the
  attribute pass and code generator over the left-child/right-sibling node
  table, the bytecode machine, and the theorem that compiled statement lists of
  the double-word fragment compute what direct evaluation computes.
- **memheap** (`MemHeapCore`, `MemHeapLists`, `MemHeapShape`, `MemHeapInv`,
  `MemHeapOps`, `MemHeap`): headers, block ring and free ring in word-addressed
  memory, with split, merge, in-place grow and shrink, and the data of clients.
- **small heap** (`SmallMemShape`, `SmallMemOps`, `SmallMem`): offset-linked
  headers with the lowest-free cursor.
- **slab** (`PageRuns`, `PageList`, `SlabZone`, `Slab`, `SlabOps`, `SlabHeap`):
  the coalescing page list, size classes, zones and the page table.
- **threads** (`Bits`, `ReadyQueue`, `Threads`, `Kernel`): find-first-set, the
  one-level and two-level ready bitmap, thread states, and one semaphore.
- **IPC** (`IpcQueue`, `Mutex`, `EventFlags`, `Mailbox`, `MsgPool`, `MsgQueue`):
  waiting queues, priority inheritance, events, mailboxes, message queues.
- **timers** (`SkipList`, `Timer`, `TimerList`): the multi-level timer list on
  wrapping ticks against unbounded deadlines.
- **words** (`Words`): alignment and bounds shared by the others.
- **rings** (`Ring`): the intrusive double linked list. The other modules hold
  such rings as sequences, which this module justifies.

Where the source updates fields in place the model is a class whose methods are
proved against functions on values; invariants, refinements and results over
runs are lemmas about those functions. Steps are over-approximated: any thread
that is not waiting may make a call at any time.

Some promises hold only under a condition. Each has a lemma that says exactly
when, and most have a case, reached from a fresh object, in which they fail:

- requests near 2^32: `RoundUpExact`, `AlignExact`, `PagesExact`, and for the
  in-place grow of memheap `GrowTestExact` with `GrowWraps`;
- the 8-bit hold count of a mutex: `StepAgrees`, `RunsAgree`, `FreedTooEarly`;
- FIFO mutexes: `HandoverUrgent`, `FifoCanInvert`;
- the 16-bit semaphore value: `WrapsOnlyAtTop`, `FreshWraps`;
- the 16-bit scheduler lock count: `NestCounts`, `LockExact`, `NestOverflows`;
- periodic timers of period zero: `CheckEnds`, `ZeroLoops`;
- timers linked after their deadline: `SearchExact`, `InsertExact`, `StartExact`,
  `CheckExact`, `LateMisplaced`; `InTimeRuns` for the runs without them;
- the last block of the small heap: `BoundMisses`, `WholeRefused`;
- first fit after a shrinking realloc: `ShrinkLow`, `ShrinkHides`;
- alignment of power-of-two requests above a page: `SlabHeap.Malloc`, `OddPage`;
- the finsh text segment: `ProgramLength`, `TextCanOverflow`.

Some comments of the source do not match its code, and the model follows the
code: that all power-of-two sizes are aligned to their size and that malloc(0)
returns a pointer (`src/slab.c`), that the end stub is always unused
(`src/mem.c`), and that critical sections nest up to 65535 deep
(`src/scheduler.c`).

## Model

| member | source | states |
|---|---|---|
| `FinshLang.Get32Set32` | components/finsh/finsh.h:43-60 | the 4-byte little-endian operand encoding is undone by the fetch, for every word |
| `FinshLang.LoadAfterStore` | components/finsh/finsh_ops.c:428-434 | a double word stored at any mapped address is read back unchanged |
| `FinshArith.ArithMeaning` | components/finsh/finsh_ops.c:41-163 | sum, difference and product of two words are those of their signed values up to a multiple of 2^32, and subtracting undoes adding |
| `FinshArith.DivMeaning` | components/finsh/finsh_ops.c:113-141 | quotient and remainder put the signed dividend together again, the remainder is smaller than the divisor and has the sign of the dividend; no result exactly for divisor zero; -2^31 / -1 wraps to -2^31 with remainder 0 |
| `FinshArith.LogicMeaning` | components/finsh/finsh_ops.c:179-251 | and, or, exclusive or and complement bit by bit |
| `FinshArith.ShiftMeaning` | components/finsh/finsh_ops.c:267-295 | a left shift moves the bits up and fills with zeros, a right shift moves them down and fills with the sign bit; no result exactly for 32 or more |
| `FinshArith.BytesMeaning` | components/finsh/finsh.h:43-60 | the four operand bytes are the bits of the word, lowest byte first |
| `FinshArith.StoreFrame` | components/finsh/finsh_ops.c:428-434 | a store writes the four bytes at its address and no other |
| `FinshVm.Step` | components/finsh/finsh_vm.c:47-72 | every executed instruction moves pc forward inside the text segment and pushes at most one word, so the fetch loop ends by pc progress |
| `FinshVm.RunSplit` | components/finsh/finsh_vm.c:47-72 | a run can be cut at any reached address: running to the end is running to that address and on from its state |
| `FinshVm.RunNops` | components/finsh/finsh_vm.c:47-72 | the cleared rest of the text segment changes nothing but pc |
| `FinshVm.Machine.constructor` | components/finsh/finsh_vm.c:47-72 | the machine starts with a zero text segment, an empty stack and pc 0 |
| `FinshVm.Machine.Fetch32` | components/finsh/finsh_ops.c:317-325 | reads the operand at pc and advances by four, and fails exactly at the end of the text |
| `FinshVm.Machine.Execute` | components/finsh/finsh_ops.c:48-441 | each operation on the array stack does what the state function Step does, and faults exactly where Step does |
| `FinshVm.Machine.Run` | components/finsh/finsh_vm.c:47-72 | the fetch/execute loop from pc 0 ends in the state that iterating Step to the end of the text gives |
| `FinshCompiler.AnnotateIds` | components/finsh/finsh_compiler.c:759-901 | the attribute pass keeps the nodes of the tree and their distinctness |
| `FinshCompiler.Compiler.TypeCheck` | components/finsh/finsh_compiler.c:759-901 | the recursion that writes node attributes in place leaves exactly the annotated tree in the node table, and touches no link and no other node |
| `FinshCompiler.Compiler.EmitOwn` | components/finsh/finsh_compiler.c:43-757 | a node's own instructions are written at finsh_compile_pc, nothing else is overwritten |
| `FinshCompiler.Compiler.CountSiblings` | components/finsh/finsh_compiler.c:43-757 | the sibling loop counts the nodes of the list |
| `FinshCompiler.Compiler.Compile` | components/finsh/finsh_compiler.c:43-757 | finsh_compile writes exactly the code of the tree (children, own instructions, siblings) at pc and nothing else |
| `FinshCompiler.Compiler.ClearText` | components/finsh/finsh_compiler.c:903-937 | the text segment is zero before code generation |
| `FinshCompiler.Compiler.CompileStatement` | components/finsh/finsh_compiler.c:903-937 | one turn of the statement loop compiles the statement without its sibling, pops its value unless it is the last, and continues with the rest of the list |
| `FinshCompiler.Compiler.CompileStatements` | components/finsh/finsh_compiler.c:903-937 | the loop writes the code of all statements in order |
| `FinshCompiler.Compiler.CompilerRun` | components/finsh/finsh_compiler.c:903-937 | after the three passes the text segment holds the program of the annotated tree followed by zeros |
| `FinshCorrect.EmittedCode` | components/finsh/finsh_compiler.c:759-901 | for every tree of the fragment the attribute pass and code generation together emit the reference code of the expression, with the double-word type at the root |
| `FinshCorrect.EmittedPlace` | components/finsh/finsh_compiler.c:759-901 | a node whose address is wanted (operand of `&`, left side of `=`) is marked as an address and compiled to code that pushes the address |
| `FinshCorrect.GenRuns` | components/finsh/finsh_compiler.c:43-757 | compiler theorem: for every expression and every stack with room, running its code leaves that stack plus exactly the expression's value, and the memory of direct evaluation |
| `FinshCorrect.GenRunsPlace` | components/finsh/finsh_compiler.c:43-757 | the code of an address pushes the address that direct evaluation computes |
| `FinshCorrect.DepthBound` | components/finsh/finsh.h:30-60 | an expression of n nodes needs at most n + 2 stack slots |
| `FinshCorrect.StatementRuns` | components/finsh/finsh_compiler.c:903-937 | a statement that is not the last runs from the empty stack to the empty stack with the effects of its evaluation |
| `FinshCorrect.ProgramRuns` | components/finsh/finsh_compiler.c:903-937 | a whole statement list ends with the last value alone on the stack after the effects of all earlier statements |
| `FinshCorrect.Interpret` | components/finsh/finsh_compiler.c:903-937 | end to end: for every statement list within the node and text limits whose evaluation is defined, compiling and running never faults and gives the value and memory of direct evaluation |
| `FinshCorrect.ProgramLength` | components/finsh/finsh_compiler.c:903-937 | the length of the emitted program is the sum computed from the statements, so the text limit can be checked before compiling |
| `FinshCorrect.TextCanOverflow` | components/finsh/finsh.h:30-60 | the node limit does not imply the text limit: a list of exactly FINSH_NODE_MAX nodes whose code is longer than the text segment |
| `MemHeapShape.RoundUpExact` | src/memheap.c:158-160 | the rounded request is at least the request exactly when the request is at most 2^32 - 4, and then less than 4 above it or the minimum of 12; above, RT_ALIGN wraps |
| `MemHeapCore.Unlink` | src/memheap.c:226-227 | taking an item out of a ring by its two neighbour writes removes it from the sequence and changes no other list field |
| `MemHeapCore.Link` | src/memheap.c:220-223 | linking an item after another inserts it into the ring, and changes no other list field |
| `MemHeapLists.DropFree` | src/memheap.c:225-229 | the two writes that unlink a block from the free list keep both lists, all marks and all data outside headers |
| `MemHeapLists.PutFree` | src/memheap.c:231-235 | the four writes that put a block at the front of the free list keep both lists, all marks and all data |
| `MemHeapLists.AddBlock` | src/memheap.c:213-223 | writing a header and linking it into the block list keeps both lists, all marks and all data |
| `MemHeapLists.DropBlock` | src/memheap.c:560-561 | unlinking a header from the block list keeps the free list, all marks and all data |
| `MemHeapShape.CutTiles` | src/memheap.c:198-246 | splitting keeps the blocks tiling the pool with no two free neighbours; the free bytes fall by the request plus a header |
| `MemHeapShape.ReleasedTiles` | src/memheap.c:545-588 | releasing with left, right or double merge keeps the tiling coalesced, removes exactly that allocation, and returns its bytes plus a header per merge |
| `MemHeapShape.MovedTiles` | src/memheap.c:360-403 | moving the boundary to the free block behind keeps the tiling; the free bytes change by the difference of sizes |
| `MemHeapInv.DataQuiet` | src/memheap.c:60-131 | the data of every block lies outside all headers and inside the pool |
| `MemHeapInv.UserWrite` | src/memheap.c:60-131 | a client writing its own data never disturbs the heap |
| `MemHeapInv.LiveDataKept` | src/memheap.c:505-605 | a block live before and after an operation keeps its bytes |
| `MemHeapOps.Disjoint` | src/memheap.c:148-291 | two blocks never overlap |
| `MemHeapOps.GrowTestExact` | src/memheap.c:360 | the in-place grow test admits only what fits, with a minimal block to spare, if and only if newsize plus the minimum does not wrap in 32 bits; and then it admits exactly that |
| `MemHeapOps.AllocThenFree` | src/memheap.c:148-291 | releasing what was just allocated restores the block list exactly |
| `MemHeapOps.AllocBytes` | src/memheap.c:240-253 | available bytes fall by the request plus a header on a split, by the whole block otherwise |
| `MemHeapOps.ReleaseBytes` | src/memheap.c:545-574 | available bytes rise by the block plus one header per merge |
| `MemHeapOps.ResizeBytes` | src/memheap.c:360-495 | in-place growing and shrinking change the free bytes by the difference of sizes, less a header when the shrink makes a block of its own |
| `MemHeap.MemHeap.constructor` | src/memheap.c:60-131 | the initial heap is one free block between the start and the used tail, both lists closed, accounting exact |
| `MemHeap.MemHeap.FindFree` | src/memheap.c:179-190 | the search loop stops at the first block of the free list that is big enough, or none is |
| `MemHeap.MemHeap.SplitBlock` | src/memheap.c:198-246 | the pointer writes of a split turn the block list into the cut one and keep invariant and data |
| `MemHeap.MemHeap.TakeBlock` | src/memheap.c:247-268 | a block taken whole leaves the free list; invariant and data kept |
| `MemHeap.MemHeap.Alloc` | src/memheap.c:148-291 | alloc keeps the invariant and the exact accounting; it returns the first fit of the free list; null exactly when the request is not below available_size or no free block is large enough, and then nothing changed; max_used_size is the running maximum |
| `MemHeap.MemHeap.ReleaseBlock` | src/memheap.c:545-601 | the pointer writes of free merge left, right, both or neither and give back exactly the merged bytes |
| `MemHeap.MemHeap.Free` | src/memheap.c:505-605 | free keeps the invariant, removes that allocation, coalesces, and keeps every other allocation's bytes; a null pointer changes nothing |
| `MemHeap.MemHeap.Rebuild` | src/memheap.c:367-403 | in-place grow rebuilds the following free block at its new place even when the new header overlaps the old one |
| `MemHeap.MemHeap.ShrinkBlock` | src/memheap.c:442-495 | shrinking splits the tail off and merges it with a free block behind; the returned byte change is exact |
| `MemHeap.MemHeap.Resize` | src/memheap.c:325-502 | the in-place cases happen exactly when the grow test or the size allows it, and otherwise change nothing |
| `MemHeap.MemHeap.Relocate` | src/memheap.c:418-424 | a block that cannot grow in place moves: first fit, bytes copied, old block released; max_used_size counts the moment when both are live; null only when nothing fits, and then nothing changed |
| `MemHeap.MemHeap.Realloc` | src/memheap.c:294-502 | realloc keeps the invariant, the first min(old, new) bytes at the result and every other allocation's bytes; the block stays where it is if and only if the rounded request fits it or, with the free block behind, leaves more than 12 bytes; zero releases, null allocates, failure means that nothing fits and changes nothing; max_used_size is the running maximum, the moment of a move included |
| `MemHeap.GrowWraps` | src/memheap.c:360 | a fresh heap with one allocation, in which a realloc to any size from 2^32 - 12 on passes the grow test and cannot fit |
| `MemHeap.MemHeap.Copy` | src/memheap.c:422 | the copy between two blocks writes only the destination's data |
| `Ring.Node.constructor` | include/rtservice.h:61-64 | an initialised node is a ring of its own |
| `Ring.InsertAfter` | include/rtservice.h:72-79 | inserts into the ring's sequence right after the given node; any other ring stays a ring |
| `Ring.InsertBefore` | include/rtservice.h:87-94 | inserts right before the given node, which before the head is the end of the list; any other ring stays a ring |
| `Ring.Remove` | include/rtservice.h:100-106 | removes from the ring's sequence and leaves the node a ring of its own; any other ring stays a ring |
| `Ring.IsEmpty` | include/rtservice.h:112-115 | true exactly for a head with no members |
| `Ring.Len` | include/rtservice.h:121-132 | the number of members of the ring |
| `IpcQueue.PlaceMeaning` | src/ipc.c:105-131 | in a priority queue everyone before the found place is at least as urgent, everyone behind strictly less |
| `IpcQueue.JoinedSorted` | src/ipc.c:105-131 | a priority queue stays sorted when a thread joins |
| `IpcQueue.JoinedBehind` | src/ipc.c:105-131 | the newcomer stands behind all that are as urgent and before all that are less, and the others keep their order |
| `IpcQueue.JoinedFifo` | src/ipc.c:98-103 | in a queue by arrival the newcomer is last |
| `IpcQueue.LeftParts` | src/thread.c:740-762 | the others keep their order when one leaves |
| `IpcQueue.RemainingMeaning` | src/ipc.c:1536-1542 | the waiting time left and the ticks passed add up to the waiting time, never below zero; waiting forever stays forever |
| `IpcQueue.LeftSorted` | src/thread.c:740-762 | a waiter that times out leaves a queue that is still sorted |
| `IpcQueue.Suspend` | src/ipc.c:92-135 | the search loop of rt_ipc_list_suspend puts the thread at that place, FIFO at the end |
| `Mailbox.StoredContents` | src/ipc.c:1546-1553 | storing in the ring buffer with wrapping offsets appends to the queue of mails |
| `Mailbox.FetchedContents` | src/ipc.c:1694-1702 | fetching takes the oldest mail |
| `Mailbox.InitInv` | src/ipc.c:1305-1333 | an initialised mailbox satisfies the invariant |
| `Mailbox.TrySendInv` | src/ipc.c:1453-1572 | one pass of the sending loop, first or resumed, restores no-lost-wakeup |
| `Mailbox.TryRecvInv` | src/ipc.c:1601-1725 | one pass of the receiving loop, first or resumed, restores no-lost-wakeup |
| `Mailbox.FlushedPlaced` | src/ipc.c:1737-1769 | a reset takes every waiter off both queues with an error |
| `Mailbox.StepInv` | src/ipc.c:1453-1769 | every step of send, receive, timeout, reset and resumption keeps the invariant |
| `Mailbox.RunsSafe` | src/ipc.c:1453-1769 | over every interleaving: queued receivers imply at least `entry` woken receivers, queued senders at least `size - entry` woken senders; mails come out in the order they went in |
| `Mailbox.SendEnds` | src/ipc.c:1453-1572 | a blocked send keeps its mail, and it ends only by storing that mail, with the box still full and its time used up, by its timeout (ETIMEOUT) or by a reset (ERROR) |
| `Mailbox.MailboxObject.constructor` | src/ipc.c:1305-1333 | the mailbox starts empty; the size field has 16 bits |
| `Mailbox.MailboxObject.SendWait` | src/ipc.c:1453-1572 | the critical section of send does what the step does: EFULL exactly when full with no time to wait, suspension with the mail and the time kept exactly when full with time, else the mail is appended and the first receiver resumed |
| `Mailbox.MailboxObject.Receive` | src/ipc.c:1601-1725 | the critical section of receive: ETIMEOUT, suspension, or the oldest mail is taken and returned and the first sender resumed |
| `Mailbox.MailboxObject.SendAgain` | src/ipc.c:1526-1544 | a resumed sender recomputes its remaining time and tries again: stored, EFULL when the time is used up, or suspended again |
| `Mailbox.MailboxObject.ReceiveAgain` | src/ipc.c:1674-1692 | a resumed receiver recomputes its remaining time and tries again: the oldest mail, ETIMEOUT when the time is used up, or suspended again |
| `Mailbox.MailboxObject.ResetBox` | src/ipc.c:1737-1769 | both resume loops fail every waiter, then the box is empty |
| `EventFlags.SatisfiedMeaning` | src/ipc.c:1074-1092 | the condition in bits: AND holds if and only if every wanted bit is set, OR if and only if some is |
| `EventFlags.GrantIsReceive` | src/ipc.c:1075-1103 | a waiter satisfied by a send gets the bits, and clears the bits, that an immediate receive would |
| `EventFlags.DeliverSettles` | src/ipc.c:1065-1112 | after the walk nobody stays queued whose AND/OR condition holds for the final set, though CLEAR waiters shrink the set on the way; everyone else was served |
| `EventFlags.ConsumedOnce` | src/ipc.c:1101-1103 | bits given to a waiter were in the set, and those given to a CLEAR waiter are not in the final set |
| `EventFlags.ConsumedApart` | src/ipc.c:1101-1103 | what a CLEAR waiter is given is disjoint from what every waiter behind it is given |
| `EventFlags.DeliverConserves` | src/ipc.c:1065-1112 | no bit is lost in the walk: it is in the final set or a CLEAR waiter was given it |
| `EventFlags.SendIsReceives` | src/ipc.c:1065-1112 | one send serves its queue exactly as if each thread in turn had called rt_event_recv |
| `EventFlags.WalkQueue` | src/ipc.c:1068-1111 | the loop that walks the ring while nodes leave it computes that result |
| `EventFlags.SentInv` | src/ipc.c:1040-1122 | a send leaves no satisfied waiter queued |
| `EventFlags.SentMeaning` | src/ipc.c:1040-1122 | a send adds its bits to those already set: every bit of the sum stays, or went to a CLEAR waiter that left the queue; a satisfied waiter at the head leaves; who leaves was given what it waits for; the others keep their order |
| `EventFlags.ReceivedMeaning` | src/ipc.c:1138-1248 | a receive whose condition holds clears its bits if and only if it has the CLEAR option; otherwise the set is unchanged and it gives up at once or joins the queue with its wish |
| `EventFlags.FailMeaning` | src/thread.c:740-762 | a timeout takes that waiter off with ETIMEOUT, a reset all of them with ERROR and clears the set |
| `EventFlags.ReceivedInv` | src/ipc.c:1138-1248 | a receive, immediate, failing or blocking, leaves no satisfied waiter queued |
| `EventFlags.RunsSafe` | src/ipc.c:1040-1288 | in every reachable state no queued thread's condition holds for the event set |
| `EventFlags.EventObject.constructor` | src/ipc.c:926-944 | an event starts with no bits and no waiters |
| `EventFlags.EventObject.SendBits` | src/ipc.c:1040-1122 | rt_event_send on the object, with the same promise; an empty set is an error and changes nothing |
| `EventFlags.EventObject.Receive` | src/ipc.c:1138-1248 | rt_event_recv on the object; success exactly when the condition holds, with exactly the wanted bits that are set |
| `Mutex.TakenQueue` | src/ipc.c:732-744 | a blocked taker joins the queue where its own priority puts it, boosts notwithstanding |
| `Mutex.RunsInherit` | src/ipc.c:665-892 | over every run of takes, recursive takes, releases, timeouts and handovers: threads that do not own the mutex run at their own priority, and with the PRIO flag the owner is at least as urgent as every waiter |
| `Mutex.InitInv` | src/ipc.c:541-561 | a fresh mutex satisfies the invariant |
| `Mutex.HandoverUrgent` | src/ipc.c:852-872 | after a handover the new owner covers the other waiters if and only if the head of the queue is as urgent as each of them |
| `Mutex.FifoCanInvert` | src/ipc.c:852-872 | from a fresh FIFO mutex: a takes it, b and then a more urgent c wait, a releases, and b owns it with c waiting behind |
| `Mutex.StepAgrees` | src/ipc.c:665-892 | a step agrees with a ledger of unbounded nesting if and only if it is not the release of an inner hold at depth 257, 513 and so on, where the 8-bit hold counter reads one |
| `Mutex.RunsAgree` | src/ipc.c:665-892 | over every run: ownership, queue and hold follow the ledger after every step, and the owner runs at the most urgent priority among its own and all that blocked on it, if and only if no step is such a release |
| `Mutex.FreedTooEarly` | src/ipc.c:665-892 | from a fresh mutex, after 256 k + 1 takes for any k above zero, one release frees the mutex although 256 k holds remain |
| `Mutex.MutexObject.constructor` | src/ipc.c:541-561 | a fresh mutex is free |
| `Mutex.MutexObject.TakeMutex` | src/ipc.c:665-790 | rt_mutex_take on the object: recursive hold, acquisition, immediate timeout, or boost and suspension |
| `Mutex.MutexObject.ReleaseMutex` | src/ipc.c:801-892 | rt_mutex_release on the object: error for others, inner release, handover or free; whoever loses ownership is back at its own priority |
| `MsgPool.PartedCount` | src/ipc.c:1792-1839 | free slots, queued slots and slots in flight add up to the pool |
| `MsgPool.ChainAppend` | src/ipc.c:2019-2026 | writing the tail's next pointer appends to the singly linked queue |
| `MsgQueue.GrabCore` | src/ipc.c:1995-2006 | taking the first free slot keeps the partition and both lists |
| `MsgQueue.FillCore` | src/ipc.c:2011-2014 | the copy outside the critical section disturbs no other slot, and the message is in its slot afterwards |
| `MsgQueue.LinkCore` | src/ipc.c:2018-2032 | linking a filled slot at the tail, or at the head when urgent, keeps the partition, the lists and every queued message |
| `MsgQueue.UnlinkCore` | src/ipc.c:2249-2259 | unlinking the head gives the receiver the slot with the first message |
| `MsgQueue.DrainCore` | src/ipc.c:2264-2265 | the copy out agrees with that message as far as both buffers go, whatever happened in between |
| `MsgQueue.ReturnCore` | src/ipc.c:2269-2271 | the slot goes back to the free list |
| `MsgQueue.DropAllCore` | src/ipc.c:2308-2323 | the reset loop moves every queued slot to the free list and ends with a null head |
| `MsgQueue.StepInv` | src/ipc.c:1975-2337 | every step keeps the invariant and does to the pointers what it does to a stack of free slots and a deque of messages |
| `MsgQueue.RunsSafe` | src/ipc.c:1975-2337 | over every interleaving of the split critical sections: every slot is free, queued or held by exactly one call; entry is the queue length; queued receivers imply woken ones for all messages |
| `MsgQueue.FailMeaning` | src/ipc.c:2281-2337 | a timeout takes that receiver off with ETIMEOUT, a reset all of them with ERROR and leaves no message |
| `MsgQueue.SlotsFit` | src/ipc.c:1817-1833 | the slots computed from pool_size and msg_size lie in the pool and do not overlap |
| `MsgQueue.NoMoreFit` | src/ipc.c:1817-1819 | no further slot fits in the pool; the number is kept in 16 bits |
| `MsgQueue.BuildFree` | src/ipc.c:1825-1833 | the loop of rt_mq_init links all slots, the last one first |
| `MsgQueue.PoolSlots` | src/ipc.c:1817-1833 | the slots are exactly those the pool has room for, each with msg_size bytes of it |
| `MsgQueue.MqObject.constructor` | src/ipc.c:1792-1839 | an initialised queue satisfies the invariant with all slots free; msg_size is the aligned size, and the slots are all that the pool has room for, both counted in 16 bits |
| `MsgQueue.MqObject.SendBegin` | src/ipc.c:1986-2009 | first critical section: ERROR for an oversized message, EFULL without a free slot, else the slot is held with the message |
| `MsgQueue.MqObject.CopyIn` | src/ipc.c:2011-2014 | the copy into the held slot |
| `MsgQueue.MqObject.SendFinish` | src/ipc.c:2016-2051 | second critical section: send appends the message, urgent prepends it, the first receiver is resumed |
| `MsgQueue.MqObject.Receive` | src/ipc.c:2172-2262 | the receiving loop's pass: fail, suspend with size and time kept, or pop the first message |
| `MsgQueue.MqObject.CopyOut` | src/ipc.c:2264-2265 | at most msg_size bytes, agreeing with the message popped |
| `MsgQueue.MqObject.PutSlot` | src/ipc.c:2267-2273 | the slot is free again |
| `MsgQueue.MqObject.DropLoop` | src/ipc.c:2309-2323 | the loop that runs until the head is null does exactly entry turns |
| `MsgQueue.MqObject.ResetQueue` | src/ipc.c:2291-2337 | all waiters fail, no message is left, all queued slots are free |
| `Bits.BitmapLow` | src/kservice.c:1252-1270 | every nonzero byte's table entry is its lowest set bit |
| `Bits.FfsCorrect` | src/kservice.c:1282-1296 | for every 32-bit word __rt_ffs is 0 for 0 and otherwise one more than the lowest set bit |
| `ReadyQueue.InsertAgree` | src/scheduler.c:286-323 | inserting keeps the bitmap, one-level or two-level, in agreement with the run queues |
| `ReadyQueue.RemoveAgree` | src/scheduler.c:332-372 | removing keeps the agreement, clearing a group bit exactly when its byte is zero |
| `ReadyQueue.HighestCorrect` | src/scheduler.c:202-216 | the computed priority has a ready thread and every more urgent queue is empty |
| `ReadyQueue.InitAgree` | src/scheduler.c:120-147 | the empty tables agree |
| `Threads.ResumedInv` | src/thread.c:697-731 | resuming puts the thread at the end of the run queue of its priority, leaves the other queues alone, and keeps READY if-and-only-if queued |
| `Threads.SuspendedInv` | src/thread.c:654-687 | suspending and closing take a thread off its run queue and keep READY if-and-only-if queued |
| `Threads.ReprioritizedInv` | src/thread.c:585-624 | a priority change moves a ready thread to the matching queue and recomputes the masks of any thread |
| `Threads.YieldedInv` | src/thread.c:458-492 | yielding sends the head of a shared queue to its end and keeps the agreement |
| `Threads.StartedInv` | src/thread.c:273-305 | a started thread is READY on the queue of its initial priority |
| `Threads.TakenInv` | src/ipc.c:334-419 | a take blocks exactly at value 0 with a waiting time, and can time out exactly when that time is positive |
| `Threads.StepInv` | src/ipc.c:334-526 | every step of threads and semaphore keeps the invariant |
| `Threads.InitInv` | src/scheduler.c:120-147 | the system before any thread is started, with a fresh semaphore, satisfies the invariant that runs start from |
| `Threads.RunsSafe` | src/ipc.c:334-526 | in every reachable state: each thread is on at most one ring and READY exactly on the run queue of its priority; waiters only at value 0; initial + releases = value + takes if and only if the 16-bit value never wrapped; ended blocked takes were each granted, timed out or reset once |
| `Threads.PicksMostUrgent` | src/scheduler.c:191-277 | the head of the queue the bitmap points to is READY and no READY thread is more urgent |
| `Threads.BlockedEnds` | src/ipc.c:334-526 | a blocked take keeps waiting or ends, and it ends only as the granted head (EOK), by its own timeout (ETIMEOUT) or by a reset (ERROR), READY in each case |
| `Threads.StepMeaning` | src/thread.c:95-534 | a sleeping thread is suspended and its timer can wake it; an exiting one is closed and first in line for cleaning up; a reset leaves the semaphore with the value given and no waiter |
| `Threads.WrapsOnlyAtTop` | src/ipc.c:464-471 | the value wraps exactly at a release with value 65535 and no waiter |
| `Threads.FreshWraps` | src/ipc.c:464-471 | a semaphore initialised to 65535 and released once has the value 0 |
| `Kernel.Kernel.constructor` | src/scheduler.c:120-147 | empty run queues and bitmap, no section open, a fresh semaphore: a state that satisfies the invariant |
| `Kernel.Kernel.InsertThread` | src/scheduler.c:286-323 | the array writes put the thread at the end of its queue and set its bits |
| `Kernel.Kernel.RemoveThread` | src/scheduler.c:332-372 | the array writes remove the thread and clear bits only when its queue empties |
| `Kernel.Kernel.SuspendThread` | src/thread.c:654-687 | refuses threads that are not ready, else suspends; the error code is left alone |
| `Kernel.Kernel.ResumeThread` | src/thread.c:697-762 | refuses threads that are not suspended, else makes them ready with the given error |
| `Kernel.Kernel.ChangePriority` | src/thread.c:585-624 | remove, change, insert for a ready thread; only change for any other, started or not; agreement kept |
| `Kernel.Kernel.YieldThread` | src/thread.c:458-492 | to the end of its queue unless alone there |
| `Kernel.Kernel.SemTake` | src/ipc.c:334-419 | takes, fails at once, or suspends and starts the timer |
| `Kernel.Kernel.SemRelease` | src/ipc.c:443-481 | hands the unit to the first waiter, or counts it with 16-bit wrap |
| `Kernel.Kernel.SemReset` | src/ipc.c:494-526 | the resume-all loop fails every waiter, then the value is the one given, in 16 bits |
| `Kernel.Kernel.ThreadTimeout` | src/thread.c:740-762 | the thread leaves the ring it waits on, with ETIMEOUT, and is ready |
| `Kernel.Kernel.Schedule` | src/scheduler.c:191-277 | with the scheduler unlocked the head of the most urgent nonempty queue becomes current; locked, nothing changes |
| `Kernel.NestCounts` | src/scheduler.c:377-420 | the nest count is the number of open sections after every step of a sequence of enters and exits if and only if never more than 32767 are open |
| `Kernel.LockExact` | src/scheduler.c:377-420 | the scheduler is locked exactly while a section is open, after every step, if and only if never more than 65535 are open and none is left while more than 32768 are |
| `Kernel.NestOverflows` | src/scheduler.c:377-420 | from 32767 open sections, two more enters and a single exit unlock the scheduler |
| `Kernel.Kernel.EnterCritical` | src/scheduler.c:377-392 | opens a section: the nest count steps as in that sequence |
| `Kernel.Kernel.ExitCritical` | src/scheduler.c:398-420 | leaving the outermost section reschedules, inner ones do not |
| `SkipList.WrapCompare` | src/timer.c:361-368 | the wrapped 32-bit difference of two deadlines less than the range apart is zero exactly for equal ones, and counts as later exactly when later by less than half the range or earlier by more than 2^31 + 1 ticks |
| `SkipList.WalkRow` | src/timer.c:347-369 | the inner loop stops where the scan by ticks stops, with no condition on the deadlines |
| `SkipList.ScanExact` | src/timer.c:347-369 | in a sorted row the scan by ticks stops at the place of a linear scan by unbounded deadlines if and only if the first timer scanned is not too early and the first later one less than half the range later; otherwise it stops at once or walks past the place |
| `SkipList.Search` | src/timer.c:344-372 | for any number of rows, the loop stops in every row where that scan stops, each row begun where the row above was left |
| `SkipList.SearchExact` | src/timer.c:344-372 | the whole search finds the right place in the bottom row, and then in every row, if and only if that holds in every row: an error in one row is never corrected in a row below |
| `SkipList.LinkExact` | src/timer.c:344-393 | the rows after linking by ticks are those of the stable insertion by unbounded deadlines if and only if that holds in every row |
| `SkipList.UnlinkedRows` | src/timer.c:123-131 | removing a timer from all rows keeps each row sorted and a subsequence of the row below |
| `SkipList.LinkedRows` | src/timer.c:378-393 | inserting into the lowest rows keeps each row sorted and a subsequence of the row below; the bottom row gets the stable linear-scan insertion |
| `Timer.StartedBase` | src/timer.c:298-414 | a timer started in one go is placed behind all timers with earlier or equal deadline and before all later ones |
| `Timer.InsertedBase` | src/timer.c:328-398 | the reference for the second critical section of a start: stable insertion by whatever deadline the timer was given before keeps the rows in order |
| `Timer.StartedParts` | src/timer.c:298-414 | the two critical sections of a start and the deadline between them, with nothing in between, are the start in one go |
| `Timer.StartMeaning` | src/timer.c:298-414 | a started timer is armed from now for its delay, linked in parts from the last part for the deadline set before; the others are left alone |
| `Timer.StopMeaning` | src/timer.c:424-449 | a stopped timer is linked no more and idle; the others are left alone |
| `Timer.ControlMeaning` | src/timer.c:461-487 | control sets delay and kind for the next start; a running timer runs on |
| `Timer.InsertExact` | src/timer.c:328-398 | the second critical section on 32-bit ticks does what the reference does if and only if the search sees: in every row the first timer scanned is not too early and the first later one less than half the range later |
| `Timer.StartExact` | src/timer.c:298-398 | and so does a start in one go |
| `Timer.CheckEnds` | src/timer.c:496-554 | rt_timer_check comes to an end if and only if no due timer is periodic with period zero |
| `Timer.CheckFires` | src/timer.c:496-554 | it fires exactly the front run of due timers, once each, in list order |
| `Timer.CheckKeeps` | src/timer.c:496-554 | for every timer: the check unlinks it if and only if it was due and is not periodic, re-arms it from now if and only if it was due and is periodic, and otherwise leaves it alone |
| `Timer.CheckExact` | src/timer.c:496-554 | the check on 32-bit ticks does what the reference does after any number of turns if and only if every re-arming sees |
| `Timer.PrefixIsAll` | src/timer.c:509-548 | in the sorted list that front run is exactly the set of due timers |
| `Timer.CheckedInv` | src/timer.c:496-554 | after the check every active timer's expiry is strictly in the future, re-armed periodic ones included |
| `Timer.RunsOnTime` | src/clock.c:83-105 | over every run of steps that see, with other steps between the parts of a start: each fired timer fired at its expiry, which is its deadline or the tick after a late insertion, and no active timer's expiry has passed |
| `Timer.KeepsSchedule` | src/clock.c:83-105 | over every run of steps that see in which a timer is not started, stopped or controlled, whatever the others do: its calls in the log are exactly its schedule, none skipped and none twice, and it is left where the schedule leaves it |
| `Timer.ScheduleMeaning` | src/timer.c:509-548 | that schedule in numbers: one call at the expiry for a one-shot timer, and for a periodic one a call at the expiry plus n periods for every n that has come |
| `Timer.StartedOnce` | src/timer.c:298-554 | over every run after its start that does not name it again, a one-shot timer is called exactly once, its delay after the start or at the next tick if that is none, and not before that tick has come |
| `Timer.StoppedSilent` | src/timer.c:424-449 | over every run after its stop that does not name it again, a timer is not called |
| `Timer.InTimeRuns` | src/timer.c:298-554 | runs in which the second part of every start comes no later than its deadline need no condition: all their steps see |
| `Timer.LateMisplaced` | src/timer.c:328-398 | a run from a fresh list: a timer aimed at tick d, a tick, another timer started with the longest delay, then the late insertion; the search walks past the place, and at its expiry and in the tick after the check does not call the timer |
| `Timer.FreshInv` | src/timer.c:679-687 | an empty list with all timers stopped satisfies the invariant that runs start from |
| `Timer.ZeroLoops` | src/timer.c:496-554 | a periodic timer of period zero started in a fresh list: at the next tick the check has a due timer after any number of turns |
| `TimerList.LinkRows` | src/timer.c:378-393 | the loop over the counter's bit pairs links the timer into as many rows as its height |
| `TimerList.UnlinkRows` | src/timer.c:123-131 | the loop removes the timer from every row |
| `Timer.DueCompare` | src/timer.c:518 | the wrapped difference of the current tick and the timeout tick tells whether the deadline has come, for deadlines less than half the range away in either direction |
| `TimerList.TimerList.constructor` | src/timer.c:679-687 | an empty list of any number of levels satisfies the invariant |
| `TimerList.TimerList.RemoveTimer` | src/timer.c:311-317 | first critical section: the timer leaves every row and is inactive |
| `TimerList.TimerList.AimTimer` | src/timer.c:326 | the 32-bit timeout tick stands for the unbounded deadline |
| `TimerList.TimerList.InsertTimer` | src/timer.c:328-398 | second critical section, late or not: search and links on 32-bit ticks give the state InsertedByTicks, which is the reference's if the step sees |
| `TimerList.TimerList.StartTimer` | src/timer.c:298-414 | the three parts in a row on 32-bit ticks; if the step sees, the new bottom row is the stable insertion by unbounded deadline |
| `TimerList.TimerList.StopTimer` | src/timer.c:424-449 | an inactive timer is refused, an active one leaves the rows and is inactive; all others stay linked |
| `TimerList.TimerList.FireHead` | src/timer.c:518-545 | one turn of the check: unlink, call, re-arm if periodic |
| `TimerList.TimerList.CheckTimers` | src/timer.c:496-554 | the check loop ends and reaches the state the reference check gives, if every re-arming sees |
| `TimerList.TimerList.TickIncrease` | src/clock.c:83-105 | a tick that sees advances the 32-bit counter with wrap and runs the check; the invariant is kept |
| `TimerList.TimerList.NextTimeout` | src/timer.c:110-121 | the tick of the earliest deadline, or RT_TICK_MAX when no timer runs |
| `Words.AlignExact` | src/mem.c:290 | RT_ALIGN rounds up by less than 4 exactly for sizes up to 2^32 - 4 |
| `SmallMemOps.CutGood` | src/mem.c:330-349 | the header writes of a split keep headers and tiling in step |
| `SmallMemOps.PairGood` | src/mem.c:157-195 | the two writes of a merge keep headers and tiling in step, prev of the block behind included |
| `SmallMemOps.MarkGood` | src/mem.c:592 | changing a used flag keeps headers and tiling in step |
| `SmallMemOps.MergedCalm` | src/mem.c:157-195 | after plug_holes no two neighbours are free, if the freed block was the only trouble |
| `SmallMem.FirstFit` | src/mem.c:306-312 | with every block below lfree used, the search from lfree is first fit over the whole heap, both for the block found and for failure |
| `SmallMem.AllocedGood` | src/mem.c:317-371 | an allocation adds exactly its extent to used_mem; a split leaves a free rest of at least MIN_SIZE_ALIGNED bytes, no split wastes less than a header and that minimum |
| `SmallMem.BoundMisses` | src/mem.c:306-308 | the loop bound shuts out exactly one fitting block: the last one, taken exactly |
| `SmallMem.WholeRefused` | src/mem.c:306-308 | a fresh heap refuses a request for all of its bytes |
| `SmallMem.ShrinkLow` | src/mem.c:472-499 | shrinking keeps every block below lfree used if and only if lfree was a block no further than the end of the shrunk one |
| `SmallMem.ShrinkHides` | src/mem.c:472-499 | two allocations in a fresh heap and a shrink of the first leave a free block below lfree |
| `SmallMem.MergedLow` | src/mem.c:157-195 | plug_holes keeps every block below lfree used |
| `SmallMem.RegionFits` | src/mem.c:205-228 | the heap and its two headers lie aligned inside the region given, less than 4 bytes from both ends, which is refused exactly when they do not fit |
| `SmallMem.SmallHeap.constructor` | src/mem.c:205-258 | one free block up to the end stub, lfree at it, nothing used |
| `SmallMem.SmallHeap.PlugHoles` | src/mem.c:157-195 | merges forward and backward as the neighbours allow and moves lfree with the merge |
| `SmallMem.SmallHeap.FindFit` | src/mem.c:306-312 | the search loop returns the first fit at or above lfree, or none fits |
| `SmallMem.SmallHeap.Advance` | src/mem.c:381-388 | lfree moves to the next free block or the end stub |
| `SmallMem.SmallHeap.TakeBlock` | src/mem.c:312-388 | split or take whole; used_mem exact, max_mem the running maximum, lfree moved |
| `SmallMem.SmallHeap.Malloc` | src/mem.c:273-411 | malloc keeps the invariant and adds exactly one allocation, the first fit; null only for size zero, an oversized request or no fit, and then nothing changed |
| `SmallMem.SmallHeap.Free` | src/mem.c:549-611 | free keeps the invariant, removes exactly that allocation, lowers lfree when needed and merges |
| `SmallMem.SmallHeap.Shrink` | src/mem.c:472-499 | the in-place part of realloc cuts the block and merges the rest; it keeps first fit exactly under the stated condition |
| `SmallMem.SmallHeap.Move` | src/mem.c:502-510 | the expanding part replaces the allocation by the first fit, at least as large, and max_mem counts the moment when both are live; null only when nothing fits, and then nothing changed |
| `SmallMem.SmallHeap.Resize` | src/mem.c:460-511 | same size, shrink in place or move: one allocation replaced by one of at least the new size, or nothing fits and nothing changed; lfree stays first fit exactly under the condition of the shrink |
| `SmallMem.SmallHeap.Realloc` | src/mem.c:422-511 | all cases of realloc: too large, zero, null pointer (a new allocation or nothing fits), foreign pointer, live block; max_mem exact in each, and lfree first fit exactly under the condition of the shrink |
| `PageRuns.Canonical` | src/slab.c:282-332 | a free list is determined by its set of free pages |
| `PageRuns.FreedMeaning` | src/slab.c:282-332 | freeing keeps the list sorted, disjoint and non-adjacent and frees exactly those pages, in all four joining cases |
| `PageRuns.OrderIrrelevant` | src/slab.c:282-332 | any two orders of frees, and any two ways of cutting up the same pages, lead to the same list |
| `PageRuns.TakenMeaning` | src/slab.c:246-280 | allocating removes exactly the first pages of a fitting run |
| `PageRuns.FreeUndoesAlloc` | src/slab.c:246-332 | freeing what was just allocated restores the list exactly |
| `PageList.PageList.constructor` | src/slab.c:337-344 | all pages in one run |
| `PageList.PageList.Alloc` | src/slab.c:246-280 | the pointer walk takes from the first run with enough pages; null exactly for zero pages or no such run |
| `PageList.PageList.Cut` | src/slab.c:258-273 | splitting or unlinking through the previous link |
| `PageList.PageList.Release` | src/slab.c:282-332 | the pointer walk inserts and joins as the canonical list does |
| `PageList.PageList.JoinBehind` | src/slab.c:301-310 | lengthens the run before and closes the gap to the next |
| `PageList.PageList.LinkIn` | src/slab.c:312-327 | joins the run behind or links a new head |
| `SlabZone.ZoneIndexSound` | src/slab.c:411-469 | every size below 16384 gets one of 72 zones and a chunk that is large enough, a multiple of 8, the same for every size of that zone, and wastes less than 8 bytes or less than an eighth of the request |
| `SlabZone.TakeChunkOk` | src/slab.c:553-578 | a zone with z_nfree above zero has a chunk to give, a never used one if there is one and else the last one returned, and exactly that chunk becomes live |
| `SlabZone.ReturnChunkOk` | src/slab.c:840-856 | the returned chunk, and only it, stops being live |
| `SlabZone.WholeZoneFree` | src/slab.c:864-865 | z_nfree equals z_nmax if and only if no chunk is live |
| `SlabZone.NewZoneOk` | src/slab.c:635-656 | a new zone has at least two chunks behind the header and as many as fit, and only the first is live |
| `SlabZone.ChunksApart` | src/slab.c:638-658 | live chunks lie behind the header, inside the zone and apart from each other |
| `SlabZone.NaturallyAligned` | src/slab.c:641-654 | chunks of a power-of-two size up to a page are aligned to their size |
| `SlabZone.AlignedExact` | src/slab.c:641-654 | a chunk of any power-of-two size is aligned to its size if and only if the start of its zone is |
| `SlabZone.SmallAligned` | src/slab.c:641-654 | a power-of-two request below the limit, with heap_start on any page boundary, is aligned to the request if and only if the start of its zone is, and always up to a page |
| `Slab.LiveApart` | src/slab.c:488-677 | live allocations, small or large, never overlap |
| `Slab.LookupFinds` | src/slab.c:805-837 | memusage recovers the owning zone of every live chunk and the length of every large block |
| `SlabOps.TookSmallInv` | src/slab.c:549-587 | taking a chunk from the first zone of its list keeps all invariants, the zone leaving the list with its last chunk |
| `SlabOps.OpenedInv` | src/slab.c:597-669 | opening a retired or new zone keeps all invariants |
| `SlabOps.ReturnedInv` | src/slab.c:840-856 | returning a chunk keeps all invariants, the zone joining its list with its first free chunk |
| `SlabOps.RetiredZoneInv` | src/slab.c:864-884 | retiring a whole free zone keeps all invariants |
| `SlabOps.DroppedInv` | src/slab.c:886-910 | giving a whole free zone back to the page allocator keeps all invariants |
| `SlabOps.TookLargeInv` | src/slab.c:503-531 | a large allocation keeps all invariants |
| `SlabOps.FreedLargeInv` | src/slab.c:807-830 | freeing a large block keeps all invariants |
| `SlabHeap.PagesExact` | src/slab.c:505-509 | a large request is rounded up to enough pages and not one more, or wraps to none exactly above 2^32 - 4096 and then fails |
| `SlabHeap.OddPage` | src/slab.c:157-163 | in a fresh heap whose start is a multiple of 8192, a request of 8192 bytes is not aligned to 8192, against the comment on power-of-two sizes |
| `SlabHeap.FindZoneSize` | src/slab.c:385-387 | the doubling loop picks the largest of the three zone sizes that the number of KiB exceeds, or the smallest |
| `SlabHeap.SlabHeap.constructor` | src/slab.c:354-405 | for any heap of at least one page the initial heap satisfies the invariant; the page list gives its first pages to memusage, the rest is one free run or none |
| `SlabHeap.SlabHeap.Malloc` | src/slab.c:488-677 | a result is one new live allocation, a chunk of the request's size class below the limit and whole pages from there on, in the zone or run that `Source` names before the call: the first zone of the class, else the first retired zone, else the first run that is long enough. A power-of-two request, with heap_start on any page boundary, is aligned to its size if and only if that page is, and always up to a page. Null leaves everything unchanged, exactly when `Source` names none; max_mem is the running maximum |
| `SlabHeap.SlabHeap.TakeExisting` | src/slab.c:549-587 | the first zone of the list gives a chunk and leaves the list with its last one |
| `SlabHeap.SlabHeap.OpenZone` | src/slab.c:597-669 | the first retired zone, or the front of the first free run that is long enough, opens as a zone of that size class; null exactly when there is neither |
| `SlabHeap.SlabHeap.MallocLarge` | src/slab.c:503-531 | the pages come from the front of the first free run that is long enough, and nothing else changes; max_mem is the running maximum |
| `SlabHeap.BackMeaning` | src/slab.c:840-910 | the rule on the heap before the call: with its last live chunk back, a zone that is not the only one of its list is retired if fewer than two are, and otherwise its pages join the free runs; in every other case it stays |
| `SlabHeap.SlabHeap.ReleaseChunk` | src/slab.c:832-913 | puts the chunk back; retires a whole free zone that is not the only one of its list, or gives it to the page allocator when two are retired |
| `SlabHeap.SlabHeap.PutChunk` | src/slab.c:840-856 | the chunk goes to the front of the zone's free list, the zone to the front of its list when it had none free |
| `SlabHeap.SlabHeap.RetireZone` | src/slab.c:864-884 | the zone moves from its list to the front of zone_free |
| `SlabHeap.SlabHeap.DropZone` | src/slab.c:886-910 | the zone leaves its list, its memusage entries are cleared and its pages join the free runs |
| `SlabHeap.SlabHeap.ReleaseLarge` | src/slab.c:807-830 | exactly those pages join the free runs, and nothing else changes |
| `SlabHeap.SlabHeap.FreePtr` | src/slab.c:781-914 | for every live allocation the pointer alone leads to the right case: exactly that allocation is removed, its pages are freed or its chunk is put back, with its zone retired or dropped by the rule above |
| `SlabHeap.Unlink` | src/slab.c:872-875 | the loop through the zone list removes exactly that zone |

## Left out

- Interleaving inside one heap call: the heap semaphore is not modelled, so the points where the slab and small heap release it inside rt_malloc and rt_realloc are not separate steps.
- Data bytes of the small heap and the slab: rt_memcpy in their rt_realloc is not modelled; memheap models the data of its clients.
- The slab's rt_realloc and every rt_calloc: compositions of allocate, copy and free.
- The list links of slab zones and of the rings in IPC, timer and thread modules are sequences; update in place of these links is shown by `Ring`, `PageList` and `MsgPool` only.
- Kernel.Kernel.Schedule: does not model the context switch, the hook and the stack check, which are hardware or instrumentation.
- Threads.RunsSafe: the priority of a thread that waits in a queue by priority does not change; the code would leave the queue out of order.
- Mutex.RunsInherit: one mutex and no other priority changes; a thread that owns several mutexes is restored to the priority it had at each acquisition.
- MemHeap.MemHeap.Realloc: requires that newsize plus the minimum does not wrap when the next block is free; beyond that the grow test is wrong (`GrowTestExact`, `GrowWraps`) and the header written by the grow lands in the block's own header.
- MemHeap.MemHeap.Resize: has the same precondition for the same reason.
- FinshCorrect.Interpret: requires the emitted code to fit the text segment, which the compiler does not check; `ProgramLength` gives its length and `TextCanOverflow` a list that exceeds it.
- FinshCorrect.GenRuns: covers the double-word fragment (int and long constants and variables, arithmetic, bit and shift operators, assignment, increment and decrement of identifiers, address and dereference); calls, casts, system variables, byte and word types are not modelled.
- TimerList.TimerList.TickIncrease: requires that every re-arming of the check sees, which is the case if no timer was linked more than two ticks late.
- TimerList.TimerList.CheckTimers: timeout functions that start or stop timers, and ticks that pass inside a callback, are not modelled; requires that no due timer has period zero, since otherwise the loop does not end.
- Timer.RunsOnTime: a second rt_timer_start of the same timer between the parts of a start is not among the steps; there the code changes the tick of a linked timer and links it twice.
- TimerList.TimerList.InsertTimer: works on a list in order; what the code does on a list that a misplaced timer has left out of order is not modelled beyond `LateMisplaced`.
- SmallMem.SmallHeap.constructor: requires at least MIN_SIZE_ALIGNED data bytes, since below that the loop bound of rt_malloc wraps.
- Soft timers, rt_tick_set, and the time slice in rt_tick_increase.
- Signals and the EINTR retry of rt_mutex_take.
- Object creation, deletion and detaching of IPC objects, and deletion of a thread that is blocked.
- Memory pools, devices, modules, formatted output, the finsh lexer, parser, heap and system calls.
- Hooks, debug logging and assertion handling; assertions appear as preconditions.
