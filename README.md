# OS_Design kernel shell core, modelled in Dafny

This project models the core of `OsFinal/test/kernel/main.c`, the kernel of
a small teaching operating system (an Orange's-style x86 kernel). It covers:

- **the process table** (`process.dfy`, `kernel.dfy`): how `kernel_main` fills
  `proc_table` at boot, with LDT descriptors, selectors, registers, quanta and
  stacks carved from the stack arena;
- **the scheduler** (`scheduler.dfy`, `kernel.dfy`): the arbitration that
  `printProcess` performs between processes A, B and C (slots 6, 7 and 8)
  in round-robin or priority mode, and the process-management commands of
  TestA: `run`, `pause all`, `RR schedule`, `PRIO schedule`, resume, pause,
  and raising or lowering a priority;
- **the bump allocator** (`allocator.dfy`): `malloc_init`, `malloc_dispose`,
  `malloc`, `realloc`, `free`, `mark` and `release` over a 32-bit address
  space and a byte-addressed memory;
- **`my_atoi`** (`atoi.dfy`);
- **the 2048 game** (`game2048.dfy`): `add()`, the four arrow-key moves over
  the `num[4][4]` board, and the game-over test;
- **the Sokoban game** (`sokoban.dfy`): the `box_map` start map, `box_move`,
  and the win test `check`.

Code that changes state in place is modelled imperatively, and each method is
proved against a pure specification function:

- `proc_table` is an array of process-control blocks in class
  `Kernel.ProcTable`;
- the heap globals and memory live in class `Allocator.Arena`;
- the 2048 globals and board live in class `Game2048.Game`;
- `box_map` is an `array2` in class `Sokoban.BoxGame`.

The loops of the source are loops here, with their invariants.

## Model

| member | source | states |
|---|---|---|
| Process.InitDesc | OsFinal/test/kernel/main.c:70-90 | The descriptor keeps the given base and limit. The access and flag bytes are single bytes, and together they give back any 16-bit attribute word: flags << 8 | access == attribute. |
| Process.Selector | OsFinal/test/kernel/main.c:92-97 | The selector decodes back to the given LDT index, the SA_TIL table bit and the requested RPL. |
| Process.KernelGs | OsFinal/test/kernel/main.c:97 | SELECTOR_KERNEL_GS with its RPL bits replaced: same index, same table bit, the requested RPL. |
| Process.Retag | OsFinal/test/kernel/main.c:62-69 | A copied GDT descriptor keeps base, limit and flag byte; it gets the requested DPL and the segment type bits. |
| Process.InitImageDesc | OsFinal/test/kernel/main.c:70-90 | INIT's descriptor spans the kernel image from base 0, with limit (k_base + k_limit) >> LIMIT_4K_SHIFT, the requested DPL and the 32-bit, 4K-granular flag byte. |
| Process.LdtDescriptor | OsFinal/test/kernel/main.c:62-90 | Each LDT descriptor carries the privilege of its class. A non-INIT slot copies the GDT's base and limit; INIT's starts at 0. |
| Process.InitialRegs | OsFinal/test/kernel/main.c:92-100 | cs selects the LDT code segment and ds/es/fs/ss the LDT data segment, with SA_TIL set and the class RPL. gs keeps the index and table bit of SELECTOR_KERNEL_GS and takes the class RPL. eip, esp and eflags are the given values. |
| Process.ZeroPcb | OsFinal/test/kernel/main.c:36-116 | A slot of the zero-filled static table is not runnable, has no ticks, priority 0 and NR_FILES closed files. |
| Process.BootSlot | OsFinal/test/kernel/main.c:39-113 | A boot-loop slot keeps its runnability. A populated slot gets p_flags 0 and a full quantum (ticks equal to priority). |
| Process.BootSlotFacts | OsFinal/test/kernel/main.c:39-113 | A free slot only gets FREE_SLOT. A populated slot gets p_flags 0, its template's name and entry point, and the arena pointer as esp. Its p_parent, p_recvfrom and p_sendto are NO_TASK; p_msg, has_int_msg, q_sending and next_sending are 0; every filp entry is 0. Tasks get quantum 15, eflags 0x1202 and task privilege; user processes get quantum 5, eflags 0x202 and user privilege. Runnability is untouched. |
| Process.BootSlotPopulates | OsFinal/test/kernel/main.c:39-113 | A populated slot is exactly its template filled in at the slot's arena pointer, in the slot's class; INIT's flag condition then holds. |
| Process.PopulateFrame | OsFinal/test/kernel/main.c:62-100 | The filled slot's LDT code and data descriptors are LdtDescriptor of the GDT descriptors with the class privilege. Its register frame is InitialRegs with the class RPL, the template's entry point, the given stack pointer and the class eflags (0x1202 for a task, 0x202 for a user process). |
| Process.StackUsedMonotone | OsFinal/test/kernel/main.c:36-116 | With non-negative stack sizes, the arena pointer only moves down as the loop advances. |
| Process.StackUsedBeyondPopulated | OsFinal/test/kernel/main.c:39-42 | Free slots consume no stack: past the populated slots the pointer stays put. |
| Process.StackInArena | OsFinal/test/kernel/main.c:36-116 | Every slot's stack [esp - stacksize, esp) lies inside [task_stack, task_stack + STACK_SIZE_TOTAL). |
| Process.StacksDisjoint | OsFinal/test/kernel/main.c:36-116 | The stacks of two different slots do not overlap. |
| Kernel.ProcTable.Boot | OsFinal/test/kernel/main.c:36-116 | After the loop over NR_TASKS + NR_PROCS slots, every slot k holds BootSlot(k), schedule_flag is round robin, and slots 6..8 satisfy the scheduling invariant. |
| Kernel.ProcTable.BuildTable | OsFinal/test/kernel/main.c:36-116 | The loop over NR_TASKS + NR_PROCS slots of a zero-filled table leaves BootSlot(k) in every slot k. |
| Kernel.ProcTable.FillSlot | OsFinal/test/kernel/main.c:39-115 | One turn of the boot loop: the slot becomes BootSlot(i) and the arena pointer moves to its value for slot i + 1. |
| Scheduler.RunnableUpTo | OsFinal/test/kernel/main.c:1023-1045 | Ascending, and contains exactly the runnable slots among 6..hi-1. |
| Scheduler.RoundRobinOrder | OsFinal/test/kernel/main.c:1023-1045 | In round-robin mode printProcess emits exactly the runnable slots among 6..8, in ascending order, each once. |
| Scheduler.Best | OsFinal/test/kernel/main.c:1051-1061 | The scan's choice: a runnable slot with the most ticks, the lowest such slot on ties; no ticks and slot 0 when no runnable slot has any ticks left. |
| Scheduler.Replenish | OsFinal/test/kernel/main.c:1062-1071 | The epoch reset changes only ticks. Every runnable slot among 6..8 gets its priority as ticks, and every other slot is unchanged. |
| Scheduler.Epoch | OsFinal/test/kernel/main.c:1049-1072 | The table the priority loop settles on differs from the old one only in ticks; when the loop can settle, some runnable slot then has ticks left. |
| Scheduler.CanSchedule | OsFinal/test/kernel/main.c:1049-1072 | The priority loop has a slot to find exactly when a runnable slot among 6..8 has ticks left now or after one epoch reset. |
| Scheduler.PrioritySchedule | OsFinal/test/kernel/main.c:1046-1093 | The emitted slot is runnable and in 6..8. After the epoch step it is Best, and its ticks drop by one. |
| Scheduler.Arbitrate | OsFinal/test/kernel/main.c:1021-1095 | Only runnable slots in 6..8 are emitted. Only ticks change, and round robin changes nothing. Priority mode emits one slot when CanSchedule holds; otherwise it emits nothing and changes nothing, where the source never returns (corrected, see the Findings table). |
| Scheduler.CanScheduleIffRunnable | OsFinal/test/kernel/main.c:1049-1072 | Under the scheduling invariant, the priority loop terminates exactly when some slot among 6..8 is runnable. |
| Scheduler.NoCandidateNoProgress | OsFinal/test/kernel/main.c:1049-1072 | With no schedulable slot, neither the scan nor the reset produces a candidate, and the reset is idempotent: the source's loop would spin forever. |
| Scheduler.Spin | OsFinal/test/kernel/main.c:1049-1072 | n turns of the priority loop as written (scan, then reset when greatest_ticks is 0) keep the table's length. |
| Scheduler.SpinExits | OsFinal/test/kernel/main.c:1049-1072 | When CanSchedule holds, the loop leaves after one turn with the epoch table and a candidate with ticks left. |
| Scheduler.SpinForever | OsFinal/test/kernel/main.c:1049-1072 | As written: without CanSchedule, after any number of turns greatest_ticks is still 0 and there is still nothing to find, so the loop never returns. |
| Scheduler.NoCandidateAfterReset | OsFinal/test/kernel/main.c:1062-1071 | Without CanSchedule, the reset creates no candidate and the scan after it finds none. |
| Scheduler.ReplenishRefills | OsFinal/test/kernel/main.c:1062-1071 | When every runnable slot is out of ticks, the reset gives some runnable slot ticks again. |
| Scheduler.ReplenishKeepsInv | OsFinal/test/kernel/main.c:1062-1071 | The reset keeps every priority on the ladder and 0 <= ticks <= priority. |
| Scheduler.PriorityKeepsInv | OsFinal/test/kernel/main.c:1046-1093 | A priority arbitration keeps the scheduling invariant. |
| Scheduler.ArbitrateKeepsInv | OsFinal/test/kernel/main.c:1021-1095 | Any arbitration keeps the invariant, and never changes runnability or priorities. |
| Scheduler.PausedNeverChosen | OsFinal/test/kernel/main.c:1021-1095 | A paused slot is never emitted, in either mode. |
| Scheduler.Arbitrations | OsFinal/test/kernel/main.c:1538-1551 | n arbitrations in a row keep the invariant, runnability and priorities. In priority mode they emit n slots when some slot is runnable, and nothing, changing nothing, when none is (corrected, see the Findings table). |
| Scheduler.ArbitrationsStep | OsFinal/test/kernel/main.c:1538-1551 | n + 1 arbitrations are n arbitrations followed by one more, in either mode, whether or not a slot is runnable. |
| Scheduler.RoundRobinCycles | OsFinal/test/kernel/main.c:1023-1045 | n round-robin arbitrations emit the runnable slots n times over and change nothing. |
| Scheduler.PriorityExample | OsFinal/test/kernel/main.c:1049-1092 | With A, B, C runnable and 5, 8, 0 ticks left, B is chosen and charged one tick. |
| Scheduler.EpochResetPicksHighestPriority | OsFinal/test/kernel/main.c:1049-1092 | After an epoch reset the chosen slot has the highest priority among the runnable slots. |
| Scheduler.Raise | OsFinal/test/kernel/main.c:1166-1180 | UpPriority changes only priority and ticks; when it changes anything, the priority goes up and the ticks restart from it. |
| Scheduler.Lower | OsFinal/test/kernel/main.c:1181-1193 | DownPriority changes only priority and ticks; when it changes anything, the priority goes down and the ticks restart from it. |
| Scheduler.LadderClosed | OsFinal/test/kernel/main.c:1166-1193 | Raising and lowering keep the priority on the ladder 5, 15, ..., 805 and keep 0 <= ticks <= priority. |
| Scheduler.RaiseLowerInverse | OsFinal/test/kernel/main.c:1166-1193 | An accepted raise followed by a lower (or a lower followed by a raise) restores the priority, with the quantum refilled. |
| Scheduler.RefusedChangesNothing | OsFinal/test/kernel/main.c:1166-1193 | A raise at or above 800, or a lower at or below 5, leaves the slot unchanged. |
| Kernel.ProcTable.PrintProcess | OsFinal/test/kernel/main.c:1021-1095 | The emitted slots and the new table are exactly Arbitrate of the old table in the current mode, in every state; the invariant is kept. In priority mode without CanSchedule it returns with nothing emitted (corrected, see the Findings table). |
| Kernel.ProcTable.RoundRobinPass | OsFinal/test/kernel/main.c:1023-1045 | The loop emits exactly RoundRobinOrder. |
| Kernel.ProcTable.PriorityPass | OsFinal/test/kernel/main.c:1046-1093 | The scan-and-reset loop and the tick decrement emit, and leave, exactly the priority arbitration. |
| Kernel.ProcTable.TakeTick | OsFinal/test/kernel/main.c:1073-1092 | The chosen slot loses one tick; nothing else changes. |
| Kernel.ProcTable.Settle | OsFinal/test/kernel/main.c:1049-1072 | The loop ends with the epoch table and a choice equal to Best with ticks left. |
| Kernel.ProcTable.ScanGreatest | OsFinal/test/kernel/main.c:1051-1061 | One scan returns Best; greatest is positive exactly when some runnable slot has ticks left. |
| Kernel.ProcTable.ResetEpoch | OsFinal/test/kernel/main.c:1062-1071 | The table becomes Replenish of the old table. |
| Kernel.ProcTable.Resume | OsFinal/test/kernel/main.c:1158 | The slot becomes runnable and nothing else changes. |
| Kernel.ProcTable.Pause | OsFinal/test/kernel/main.c:1163 | The slot stops being runnable and nothing else changes. |
| Kernel.ProcTable.UpPriority | OsFinal/test/kernel/main.c:1166-1180 | Accepted exactly when the priority is below 800. The slot becomes Raise of itself: +10 with a refilled quantum, or unchanged when refused. |
| Kernel.ProcTable.DownPriority | OsFinal/test/kernel/main.c:1181-1193 | Accepted exactly when the priority is above 5. The slot becomes Lower of itself: -10 with a refilled quantum, or unchanged when refused. |
| Kernel.ProcTable.RunAll | OsFinal/test/kernel/main.c:1529-1537 | Slots 6, 7 and 8 become runnable and nothing else changes. |
| Kernel.ProcTable.PauseAll | OsFinal/test/kernel/main.c:1538-1551 | One hundred arbitrations are emitted exactly as Arbitrations gives them, in any state; then slots 6..8 stop being runnable. |
| Kernel.ProcTable.RunRounds | OsFinal/test/kernel/main.c:1540-1543 | n calls of printProcess, from any valid state, emit and leave exactly Arbitrations(n). |
| Kernel.ProcTable.StopAll | OsFinal/test/kernel/main.c:1546-1548 | Slots 6, 7 and 8 stop being runnable and nothing else changes. |
| Kernel.ProcTable.SetMode | OsFinal/test/kernel/main.c:1552-1563 | Only schedule_flag changes. |
| Kernel.ProcTable.EnterTestA | OsFinal/test/kernel/main.c:1431-1434 | The ticks of slots 6..8 become 0 and nothing else changes. |
| Allocator.Wrap | OsFinal/test/kernel/main.c:193-209 | A 32-bit pointer sum: below 2^32, and unchanged when already in range. |
| Allocator.LoadStore | OsFinal/test/kernel/main.c:193-230 | A size header read back after it is written gives the stored size; no byte outside the word changes. |
| Allocator.Copy | OsFinal/test/kernel/main.c:227-228 | memcpy leaves every byte outside the n destination bytes unchanged. |
| Allocator.CopyEffect | OsFinal/test/kernel/main.c:227-228 | memcpy of n bytes between disjoint ranges copies every source byte and changes nothing else. |
| Allocator.RoundUp4 | OsFinal/test/kernel/main.c:207 | The cursor is rounded up to a multiple of four, by at most three bytes. |
| Allocator.Carve | OsFinal/test/kernel/main.c:203-207 | A successful malloc's carving step: the size header at the old cursor reads back the size, the cursor ends on a multiple of four, the block becomes last_alloc and malloc_top is kept. |
| Allocator.InitStep | OsFinal/test/kernel/main.c:181-185 | malloc_init sets the cursor to the bottom and malloc_top to bottom + size; memory and last_alloc are unchanged. |
| Allocator.DisposeStep | OsFinal/test/kernel/main.c:187-191 | malloc_dispose clears the cursor and last_alloc and keeps memory and malloc_top. |
| Allocator.MallocStep | OsFinal/test/kernel/main.c:193-209 | malloc fails exactly when the allocator is off or header plus block do not fit below malloc_top, and a failure changes nothing. On success the block follows a size header and fits the arena, and it becomes last_alloc. (corrected, see the Findings table) |
| Allocator.ReallocStep | OsFinal/test/kernel/main.c:211-230 | With the allocator off it fails and changes nothing; malloc_top is kept; last_alloc is either kept or becomes the returned block. (corrected, see the Findings table) |
| Allocator.FreeStep | OsFinal/test/kernel/main.c:232-238 | free moves only the cursor, and only when given the newest non-NULL block. Given that block while the allocator is on, it always moves the cursor back onto the block's header. (corrected, see the Findings table) |
| Allocator.MarkOf | OsFinal/test/kernel/main.c:240-245 | mark returns the cursor exactly when the allocator is on. |
| Allocator.ReleaseStep | OsFinal/test/kernel/main.c:247-252 | release moves only the cursor, to the mark, and only when the allocator is on. |
| Allocator.MallocFits | OsFinal/test/kernel/main.c:193-209 | After a successful malloc the cursor lies past the block's end by at most three bytes, on a multiple of four. The header reads back the size, and no other byte changes. |
| Allocator.MallocDisjoint | OsFinal/test/kernel/main.c:193-209 | Two successive blocks do not overlap, and both lie below malloc_top. |
| Allocator.FreeUndoesMalloc | OsFinal/test/kernel/main.c:193-238 | Freeing the newest block restores the cursor, so the next malloc returns the same address as before. |
| Allocator.ReleaseUndoesMallocs | OsFinal/test/kernel/main.c:240-252 | Releasing to a mark taken before two mallocs rolls both back. |
| Allocator.FirstMalloc | OsFinal/test/kernel/main.c:181-209 | A fresh arena serves a first request exactly when the bottom is non-NULL and the request plus its header fit. |
| Allocator.DisposedIsInert | OsFinal/test/kernel/main.c:187-252 | After malloc_dispose, malloc and realloc return NULL, and free, mark and release do nothing. |
| Allocator.NullArguments | OsFinal/test/kernel/main.c:211-238 | realloc(NULL, n) is malloc(n), and free(NULL) does nothing. |
| Allocator.ReallocInPlace | OsFinal/test/kernel/main.c:217-224 | realloc of the newest block keeps its address, fails exactly when the new end passes malloc_top, rewrites the header and leaves other bytes alone. |
| Allocator.ReallocMoves | OsFinal/test/kernel/main.c:226-229 | realloc of an older block returns what malloc would. The new block holds the first min(old size, new size) bytes of the old contents. |
| Allocator.MovedContents | OsFinal/test/kernel/main.c:226-229 | On success, the moved block sits right after the new header and carries the copied contents. |
| Allocator.MovedBlock | OsFinal/test/kernel/main.c:226-229 | The moved block's memory is the new header followed by the copy. |
| Allocator.StepsKeepHeapOk | OsFinal/test/kernel/main.c:181-252 | malloc, realloc and dispose keep every global a 32-bit value. |
| Allocator.MallocAsWritten | OsFinal/test/kernel/main.c:193-209 | As written: NULL and nothing changed when the allocator is off or the wrapped 32-bit bound check fails; otherwise the header reads back the size and the block becomes last_alloc. |
| Allocator.ReallocAsWritten | OsFinal/test/kernel/main.c:211-230 | As written: NULL and nothing changed when the allocator is off; malloc_top is kept and last_alloc is kept or becomes the result. |
| Allocator.FreeAsWritten | OsFinal/test/kernel/main.c:232-238 | As written: free changes at most the cursor, and only when the allocator is on and the argument equals last_alloc, NULL included; in that case the cursor always goes back to that block's header. |
| Allocator.NullMatchesLastAlloc | OsFinal/test/kernel/main.c:211-238 | Counterexample: before any malloc, free(NULL) as written moves the cursor to 0xFFFFFFFC and realloc(NULL, 16) returns NULL. The corrected functions do neither. |
| Allocator.MallocWrapsAround | OsFinal/test/kernel/main.c:199 | Counterexample: a request of 0xFFFFFFFC bytes passes the wrapped bound check and the next malloc hands out the same block; the corrected malloc refuses. |
| Allocator.ReallocWrapsAround | OsFinal/test/kernel/main.c:217-224 | Counterexample: after malloc(0) in the arena [0x1000, 0x2000), realloc of that block to 0xFFFFFFFF bytes passes the wrapped in-place check and moves the cursor back to 0x1003. The corrected realloc refuses. |
| Allocator.OverrunHeapReached | OsFinal/test/kernel/main.c:193-209 | The arena used by the next counterexample is reachable: malloc(12), then malloc(4), then one store. |
| Allocator.ReallocOverrunsArena | OsFinal/test/kernel/main.c:226-228 | Counterexample: as written, shrinking a 12-byte block into a 4-byte one writes past malloc_top. The corrected realloc does not. |
| Allocator.Arena.constructor | OsFinal/test/kernel/main.c:181-185 | The globals start at zero (allocator off) over the given memory. |
| Allocator.Arena.Init | OsFinal/test/kernel/main.c:181-185 | The new state is InitStep of the old. |
| Allocator.Arena.Dispose | OsFinal/test/kernel/main.c:187-191 | The new state is DisposeStep of the old. |
| Allocator.Arena.Malloc | OsFinal/test/kernel/main.c:193-209 | The returned address and the new state are MallocStep of the old state. (corrected, see the Findings table) |
| Allocator.Arena.Realloc | OsFinal/test/kernel/main.c:211-230 | The returned address and the new state are ReallocStep of the old state. (corrected, see the Findings table) |
| Allocator.Arena.Free | OsFinal/test/kernel/main.c:232-238 | The new state is FreeStep of the old. (corrected, see the Findings table) |
| Allocator.Arena.Mark | OsFinal/test/kernel/main.c:240-245 | Returns MarkOf the state and changes nothing. |
| Allocator.Arena.Release | OsFinal/test/kernel/main.c:247-252 | The new state is ReleaseStep of the old. |
| Atoi.DigitRun | OsFinal/test/kernel/main.c:261-276 | The digit prefix has maximal length: every character in it is a digit, and the next character, if any, is not. |
| Atoi.RunEnds | OsFinal/test/kernel/main.c:261-276 | Any all-digit prefix followed by the end or a non-digit is the digit run. |
| Atoi.MyAtoi | OsFinal/test/kernel/main.c:261-276 | The loop returns the decimal value of the leading digits, or 0 when there are none. |
| Atoi.Show | OsFinal/test/kernel/main.c:261-276 | The decimal rendering of a number is non-empty and all digits. |
| Atoi.ValueOfShow | OsFinal/test/kernel/main.c:261-276 | The digits of a rendering are worth the rendered number. |
| Atoi.AtoiOfShow | OsFinal/test/kernel/main.c:261-276 | Round trip: my_atoi reads back the rendering of any n, whatever non-digit text follows it. |
| Atoi.AtoiIgnoresTail | OsFinal/test/kernel/main.c:261-276 | Text after the first non-digit does not change the result. |
| Game2048.MergeTiles | OsFinal/test/kernel/main.c:1842-1877 | Reference merge: every merge removes exactly one tile. |
| Game2048.AddStep | OsFinal/test/kernel/main.c:1846-1875 | One turn of add()'s loop keeps four cells and moves the scan index forward, to at most 5. |
| Game2048.AddLoop | OsFinal/test/kernel/main.c:1846-1875 | The rest of add()'s loop keeps four cells; AddLoopMerges states what it computes. |
| Game2048.MergeKeepsSum | OsFinal/test/kernel/main.c:1842-1877 | Merging preserves the sum of the tiles. |
| Game2048.MergeStable | OsFinal/test/kernel/main.c:1842-1877 | With no two equal neighbours, add() changes nothing and scores nothing. |
| Game2048.NoMergeIdentity | OsFinal/test/kernel/main.c:1842-1877 | A pass with no merge leaves the tiles, score and 2048 flag alone. |
| Game2048.MergeNonZero | OsFinal/test/kernel/main.c:1842-1877 | Merging non-empty tiles never produces an empty one. |
| Game2048.AddLoopMerges | OsFinal/test/kernel/main.c:1846-1875 | From any scan state, the rest of add()'s loop finishes the reference merge. The tiles, score, ifappear and gamew it reaches are MergeTiles'. |
| Game2048.MergeTurn | OsFinal/test/kernel/main.c:1853-1862 | A merge turn, which resumes at i + b, continues the reference merge correctly. |
| Game2048.TilesDetermine | OsFinal/test/kernel/main.c:1846-1875 | Two lines with the same tiles are the same line. |
| Game2048.ShiftedZero | OsFinal/test/kernel/main.c:1907-1917 | The packing loop counts no move exactly when every tile already sits at its packed position. |
| Game2048.LineMerge | OsFinal/test/kernel/main.c:1895-1921 | A moved line is its merged tiles packed towards the edge. Its tally is the merge's score, plus the merges and packing moves counted into ifappear. |
| Game2048.SlideLine | OsFinal/test/kernel/main.c:1899-1918 | A moved line has four cells; LineMerge states its contents. |
| Game2048.Slide | OsFinal/test/kernel/main.c:1895-2004 | A moved board is still a 4x4 board; LinesAfter and LineMerge state its contents. |
| Game2048.LineUnchangedIff | OsFinal/test/kernel/main.c:1895-1921 | A line's count is zero exactly when the move leaves the line unchanged. |
| Game2048.CellInverse | OsFinal/test/kernel/main.c:1895-2004 | Every key's line/position indexing of the board is a bijection onto the cells. |
| Game2048.LineOfWithLine | OsFinal/test/kernel/main.c:1895-2004 | Writing back one line changes that line and no other. |
| Game2048.BoardByLines | OsFinal/test/kernel/main.c:1895-2004 | Boards with the same four lines in a direction are equal. |
| Game2048.LinesAfter | OsFinal/test/kernel/main.c:1899-1918 | After the first n lines are moved, those lines are moved and the others are as before. |
| Game2048.CountZeroIff | OsFinal/test/kernel/main.c:1919-1920 | The total count is zero exactly when every line's count is zero. |
| Game2048.MoveCountedIffChanged | OsFinal/test/kernel/main.c:1919-1920 | A move is counted (ifappear non-zero, move_2048 incremented) exactly when it changes the board. |
| Game2048.StuckBoardIsFinal | OsFinal/test/kernel/main.c:2013-2059 | On a board the check declares lost, no key changes the board or the score. |
| Game2048.StuckLine | OsFinal/test/kernel/main.c:2013-2059 | Every line of a stuck board, in any direction, is full with no two equal neighbours. |
| Game2048.StableLine | OsFinal/test/kernel/main.c:1842-1877 | A full line with no equal neighbours has a zero tally. |
| Game2048.StuckIffBlocked | OsFinal/test/kernel/main.c:2013-2057 | Stuck is equivalent to the check's per-cell test holding for every cell. |
| Game2048.CellBlocked | OsFinal/test/kernel/main.c:2013-2057 | A cell that passes the check's test is non-empty where it has a neighbour to test, and differs from the cell below and the cell to the right where they exist. |
| Game2048.ShiftedAsWritten | OsFinal/test/kernel/main.c:1935-1945 | As written for 's' and 'd': the packing loop counts at most one move per tile. |
| Game2048.LineCountAsWritten | OsFinal/test/kernel/main.c:1899-1945 | As written: for 'w' and 'a' the line's count is the reference tally's count. |
| Game2048.MoveCountAsWritten | OsFinal/test/kernel/main.c:1895-2004 | As written: for 'w' and 'a' ifappear after the move is the reference move count. |
| Game2048.CountAsWrittenAgrees | OsFinal/test/kernel/main.c:1899-1920 | For 'w' and 'a' the four line counts as written add up to the reference move count. |
| Game2048.StandingTileCounted | OsFinal/test/kernel/main.c:1922-1949 | Counterexample: 's' on a board whose only tile is at the bottom leaves the board unchanged, yet as written it counts a move. Corrected, it counts none. |
| Game2048.FarTileLine | OsFinal/test/kernel/main.c:1935-1945 | Counterexample, other direction: a lone tile at the far end of a line slides all the way, yet the 's' count as written misses it; the reference tally counts it. |
| Game2048.Game.HoldsBoard | OsFinal/test/kernel/main.c:1716-1717 | The array holds a board exactly when Board() reads it back. |
| Game2048.Game.constructor | OsFinal/test/kernel/main.c:1716-1717 | The board and the score, ifappear, gamew, gamef and move counters start at zero. |
| Game2048.Game.Add | OsFinal/test/kernel/main.c:1842-1877 | add() leaves the merged tiles in the buffer. It adds the merge's gain to score and its merges to ifappear, and sets gamew when 2048 forms. |
| Game2048.Game.Turn | OsFinal/test/kernel/main.c:1848-1874 | One loop turn of add() is AddStep. |
| Game2048.Game.MergeCells | OsFinal/test/kernel/main.c:1855-1859 | Cell i takes the sum of the pair and cell b is emptied. |
| Game2048.Game.NextTile | OsFinal/test/kernel/main.c:1850-1869 | The inner loop finds the first tile after i, or 4. |
| Game2048.Game.Extract | OsFinal/test/kernel/main.c:1901-1905 | The buffer receives line j of the key's direction, and that line of the board is cleared. |
| Game2048.Game.Compact | OsFinal/test/kernel/main.c:1907-1917 | The packed line is written back. ifappear grows by the number of tiles that changed position. (corrected, see the Findings table) |
| Game2048.Game.WriteBack | OsFinal/test/kernel/main.c:1907-1917 | The packed line is written into board line j and the rest of the board is untouched. ifappear grows by the tiles whose position in the line changed (corrected, see the Findings table). |
| Game2048.Game.MoveLine | OsFinal/test/kernel/main.c:1899-1918 | One line of a move: the board's line becomes SlideLine. Its tally is added to score, ifappear and gamew. (corrected, see the Findings table) |
| Game2048.Game.AddLine | OsFinal/test/kernel/main.c:1906 | add() on the extracted line yields tiles that pack to the moved line, with the line's score and merges counted. |
| Game2048.Game.SlideLines | OsFinal/test/kernel/main.c:1899-1918 | The board becomes Slide of the old board, with the move's tally added. (corrected, see the Findings table) |
| Game2048.Game.Move | OsFinal/test/kernel/main.c:1895-2004 | An arrow key leaves Slide of the old board and adds the move's gain to score. ifappear becomes the move's count; gamew is set when 2048 forms. move_2048 grows exactly when the board changed. (corrected, see the Findings table) |
| Game2048.Game.CheckStuck | OsFinal/test/kernel/main.c:2013-2057 | gamef ends 1 exactly when the board has no empty cell and no equal neighbours. |
| Sokoban.Ahead | OsFinal/test/kernel/main.c:2216-2287 | The cell ahead is adjacent to the man's cell. |
| Sokoban.KeyDir | OsFinal/test/kernel/main.c:2214-2292 | w/W/72 move up, s/S/80 down, a/A/75 left and d/D/77 right, each exactly; every other key is no move. |
| Sokoban.LastManSpec | OsFinal/test/kernel/main.c:2206-2213 | The row-major scan finds no man exactly when there is none. Otherwise it finds a man with no man after it. |
| Sokoban.ManFound | OsFinal/test/kernel/main.c:2206-2213 | A map holding a man makes the scan find one. |
| Sokoban.LastManIn | OsFinal/test/kernel/main.c:2206-2213 | A man found by the scan lies inside the map, before the scan position, and holds a man code (2 or 6). |
| Sokoban.Step | OsFinal/test/kernel/main.c:2216-2287 | Each cell of the new map is the code box_move's arithmetic gives it. |
| Sokoban.NewCode | OsFinal/test/kernel/main.c:2216-2287 | A move changes no cell other than the man's, the one ahead and the one beyond; the man's cell keeps its code or loses the man (-2). |
| Sokoban.StepMovesOccupants | OsFinal/test/kernel/main.c:2216-2287 | The code arithmetic is a layered move. Walls and targets stay, every code stays valid, the man walks into a free cell or pushes a box into a free cell beyond it, and otherwise nothing moves. |
| Sokoban.CellMoves | OsFinal/test/kernel/main.c:2216-2287 | The same correspondence at one cell. |
| Sokoban.PlayableStepOk | OsFinal/test/kernel/main.c:2206-2287 | On a playable map every index box_move computes is in bounds. |
| Sokoban.StepKeepsPlayable | OsFinal/test/kernel/main.c:2216-2287 | A move keeps the map playable: valid codes, sealed edge, nothing movable on the edge, and a man. |
| Sokoban.Turn | OsFinal/test/kernel/main.c:2202-2292 | Any key keeps a playable map playable. |
| Sokoban.LooseInZero | OsFinal/test/kernel/main.c:2314-2322 | The count of off-target boxes before a cell is zero exactly when no cell before it holds one. |
| Sokoban.InitialPlayable | OsFinal/test/kernel/main.c:2141-2150 | The start map is playable and the man starts at row 6, column 5. |
| Sokoban.InitialCodes | OsFinal/test/kernel/main.c:2141-2150 | The start map holds only valid codes, and only walls and floor on its edge. |
| Sokoban.InitialSealed | OsFinal/test/kernel/main.c:2141-2150 | The start map's edge is walled in next to every open inner cell. |
| Sokoban.BoxGame.constructor | OsFinal/test/kernel/main.c:2139-2150 | box_map starts as the start map and the game is not quit. |
| Sokoban.BoxGame.FindMan | OsFinal/test/kernel/main.c:2206-2213 | The nested loops return the last man in row-major order. |
| Sokoban.BoxGame.Push | OsFinal/test/kernel/main.c:2216-2287 | One move of the man at (x, y) is in bounds. box_map becomes Step of the old map and stays playable. |
| Sokoban.BoxGame.Walk | OsFinal/test/kernel/main.c:2219-2223 | The two cell updates of a walk produce the stepped map. |
| Sokoban.BoxGame.Shove | OsFinal/test/kernel/main.c:2224-2231 | The three cell updates of a push produce the stepped map. |
| Sokoban.BoxGame.BoxMove | OsFinal/test/kernel/main.c:2202-2292 | box_move leaves box_map as Turn of the old map, playable. 'j' sets SokobanGame, which ends the game loop. |
| Sokoban.BoxGame.Check | OsFinal/test/kernel/main.c:2312-2331 | check reports a win exactly when no cell holds a box off its target. |

## Left out

- Boot hardware and firmware: the GDT/TSS set-up, interrupts, the clock, `get_kernel_map` (its result is a parameter), the restart into ring 1/3, and `p_proc_ready`.
- `get_ticks`, `milli_delay` and every other use of the clock; randomness (`rand` in the 2048 `appear`) and the time-based games.
- Console and file I/O: `printf`, `out_char`, `clrscr`, `draw_box_map`, `prin`, `getch`, the shell, `untar`, the file-system commands, and the TestA/TestB/TestC input loops. printProcess's output is modelled as the sequence of slots whose letters it prints. Each TestA command is a method of its own.
- The driver loops `Gameplay` and `Sokoban`, and the 2048 `appear`, `gamefaile` and the 'n' and 'j' keys; their loop control and screen output are I/O.
- `my_atof`: floating point.
- Kernel.ProcTable.Resume, Pause, UpPriority, DownPriority: the source does not range-check the slot number; the model requires a slot inside the table.
- Kernel.ProcTable.UpPriority and DownPriority: the refusal message is the `accepted` result, not the printed text.
- Kernel.ProcTable.PrintProcess, RunRounds, PauseAll, Scheduler.Arbitrate and Scheduler.Arbitrations: in priority mode with no slot to schedule they return with nothing emitted. The source's loop never returns there, as Scheduler.SpinForever states; the hang itself is not modelled.
- Kernel.ProcTable.Boot: the scheduling invariant is stated only for slots 6..8, and the configuration must put them among the populated slots.
- Process.Populate: carries no contract of its own; Process.BootSlotFacts, BootSlotPopulates and PopulateFrame state what it writes.
- Process.StackUsed: carries no contract of its own; StackUsedStep, StackUsedMonotone and StackUsedBeyondPopulated state what it sums.
- Process.InitDesc: keeps a full 32-bit limit and a whole flag byte, where the x86 descriptor packs a 20-bit limit with the flag nibble. `init_desc` is not part of this model, so its packing is not modelled.
- Process.LdtDescriptor: does not state the limit of INIT's descriptors; Process.InitImageDesc states it.
- Process.Config: the header constants (NR_TASKS, DA_C, SA_TIL and so on) are parameters, because the headers defining them are not part of this model. LIMIT_4K_SHIFT is fixed at 12.
- Process.StacksFit: the source never checks that the template stack sizes fit STACK_SIZE_TOTAL; the model assumes it at boot.
- Atoi.MyAtoi: does not model 32-bit `int` overflow for more than nine digits, because the result is an unbounded integer.
- Game2048.Game: the board values are unbounded integers; overflow of a tile or of `score` is not modelled.
- Sokoban.BoxGame.BoxMove: requires a playable map. The source indexes `box_map` without bounds checks, so a map with a man or box on its edge, or with no man, is not modelled.
- Allocator: memory is a map from 32-bit addresses to bytes; a block overlapping the end of the address space and the 64-bit size of `sizeof(int)` are not modelled (an `int` is 4 bytes).
- Allocator.MallocStep and Allocator.Arena.Malloc: corrected. The bound check compares cursor + size + 4 with malloc_top without 32-bit wrap-around, so the huge request of the MallocWrapsAround row is refused.
- Allocator.ReallocStep and Allocator.Arena.Realloc: corrected. The in-place bound check compares oaddr + size with malloc_top without 32-bit wrap-around, so the request of the ReallocWrapsAround row is refused.
- Allocator.FreeStep, Allocator.ReallocStep, Allocator.Arena.Free and Allocator.Arena.Realloc: corrected. free(NULL) does nothing and realloc(NULL, n) is malloc(n), even when last_alloc is NULL.
- Allocator.ReallocStep and Allocator.Arena.Realloc: corrected. A moved block gets min(old size, new size) bytes copied, not the whole old size.
- Game2048.Game.Compact, WriteBack, MoveLine, SlideLines and Move: corrected. For 's' and 'd' ifappear counts only the tiles whose position in the line changed; the source as written is ShiftedAsWritten and MoveCountAsWritten.

## Findings

| source | as written | input that shows it | evidently intended | confidence | as-written member | corrected member |
|---|---|---|---|---|---|---|
| OsFinal/test/kernel/main.c:217 and 236 | `free` and `realloc` compare the argument with `last_alloc` without excluding NULL; before the first malloc `last_alloc` is 0 | `malloc_init(0x10000, 0x1000)`, then `free(NULL)` moves the cursor to 0xFFFFFFFC; `realloc(NULL, 16)` returns NULL | free(NULL) does nothing, realloc(NULL, n) is malloc(n) | high, not executed | Allocator.NullMatchesLastAlloc | Allocator.NullArguments |
| OsFinal/test/kernel/main.c:199 | the bound check adds `size` to the pointer in 32 bits, so a huge size wraps around | `malloc_init(0x1000, 0x1000)`, `malloc(0xFFFFFFFC)` succeeds, and the next `malloc(4)` returns the same address | a request that does not fit below `malloc_top` returns NULL | high, not executed | Allocator.MallocWrapsAround | Allocator.MallocFits |
| OsFinal/test/kernel/main.c:226-228 | a moved block gets the whole old size copied, whatever the new size | arena [0x1000, 0x1020), `a = malloc(12)`, `b = malloc(4)`, `realloc(a, 4)` writes byte 0x1024, past `malloc_top` | copy min(old size, new size) bytes | high, not executed | Allocator.ReallocOverrunsArena | Allocator.ReallocMoves |
| OsFinal/test/kernel/main.c:1935-1945 and 1990-1999 | for 's' and 'd' the packing loop compares the buffer index with the board index, which runs down from 3 | a board whose only tile is a 2 in the bottom row: 's' leaves it unchanged but ifappear becomes 1, so move_2048 grows and a new tile appears. The other way: a lone tile in the top row slides to the bottom with g == e == 3, so ifappear stays 0 and no tile appears (Game2048.FarTileLine) | count a tile exactly when its position in the line changes | medium, not executed | Game2048.StandingTileCounted | Game2048.MoveCountedIffChanged |
| OsFinal/test/kernel/main.c:1049-1072 | the priority loop repeats scan and reset until some runnable slot among 6..8 has ticks; it has no exit when none is runnable | "pause all" (slots 6..8 stop being runnable), then "PRIO schedule", then "pause all": the first printProcess never returns | printProcess returns without printing when no slot can be scheduled | medium, not executed | Scheduler.SpinForever | Scheduler.Arbitrate |
| OsFinal/test/kernel/main.c:218 | realloc's in-place bound check adds `size` to the block address in 32 bits, so a huge size wraps around | `malloc_init(0x1000, 0x1000)`, `p = malloc(0)`, `realloc(p, 0xFFFFFFFF)` succeeds, writes header 0xFFFFFFFF and moves the cursor to 0x1003 | a block that does not fit below `malloc_top` is refused and nothing changes | high, not executed | Allocator.ReallocWrapsAround | Allocator.ReallocInPlace |
