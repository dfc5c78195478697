# Verified models of the BareMetal POSIX shims

A Dafny 4.11 project that models the hand-written C which lets musl programs run on BareMetal
without an operating system, and proves what that code relies on. `dafny verify dfyconfig.toml`
checks everything.

- **Threads, futexes, signals** (`port/thread_shim.c`). `thread_model` holds thread records, the
  ready queue and what each IRQ-off section does to them. `thread_steps` is a step system: every
  thread has a stack of shim activations, the CPU executes the top one of `g_current`, and a timer
  tick may push `thread_shim_timer_tick_c()` in any state with IRQs on, also between a park and the
  switch after it. `thread_invariant` and `thread_preserved` state and keep its invariant;
  `thread_waits`, `thread_deadlines`, `thread_fairness`, `thread_signals` and `thread_delivery` prove
  properties of whole runs, and `thread_early` gives a run in which a wait times out at once.
  `thread_calls`, `thread_requests` and `thread_lifecycle` say what each system call leaves for its
  caller, from the request to the return, whatever ticks, handlers and switches come in between;
  `thread_actions` what becomes of each delivered signal, `thread_ticks` what a yield and a tick do.
  `thread_shim` is the same data as linked objects changed in place, proved to do what the steps say.
- **The shared arena** (`port/posix_shim.c`). `heap_model` is the theory of the free list's normal
  form, `heap_arena` who owns which byte over runs of `brk`, `mmap` and `munmap`, and `heap_shim` the
  code itself: one array of words with the free list's links stored inside freed blocks.
- **Sockets** (`port/net_shim.c`). `net_model` has rings, pbuf chains and reading; `net_table` slot
  ownership, ledgers of bytes and pbufs, readiness; `net_shim` the table and its callbacks and calls;
  `net_calls` the calls that wait, with an arbitrary script of callbacks and of other threads' calls
  at every poll and sleep.
- **Smaller cores**: the ELF loader (`dlfcn_model`, `dlfcn_tables` for the tables it decodes from the
  image, `dlfcn_raw` for its entries byte by byte, `dlfcn_shim`, and two whole modules, `dlfcn_sample` and
  `dlfcn_kinds`), directory records (`ext4_getdents`), both over `bytes`, JSON strings, objects and
  payloads and UTF-8 truncation (`telegram_json`, `telegram_object`, `telegram_utf8`), URLs and path
  normalisation (`crawler_url`, `crawler_path`).

Assumptions the C makes and the models state: `clone` calls do not overlap; signal handlers do not
yield, block, clone or exit; a thread that parks in `thread_shim_exit_current` has no deliverable
signal; futex words are not at address 0; `munmap` is given whole pages that are mapped; fresh RAM
reads as zero; threads interleave inside `net_shim` only where it polls or sleeps; lwIP delivers data
only on established connections and calls no error callback on a listening pcb.

Places where the code does less than its comments or the standard suggest, kept as they are, each with
the exact condition and a witness:

- `net_shim_poll` reports no input on a stream socket that was never connected although `recv` would fail
  at once (`NetTable.PollMatchesRecv`, `NetShim.NewStreamDisagrees`).
- `apply_relocs` moves absolute symbols with the module (`DlfcnShim.LoadPrescribed`,
  `DlfcnSample.AbsoluteLoaded`).
- A signal sent once can have its handler run twice, because a tick may come between the choice of the
  signal and `irq_disable` (`ThreadDelivery.DeliveryStory`, `HandledTwice`).
- A futex timeout whose deadline wraps at 64 bits is due at once (`ThreadDeadlines.WrappedDeadline`,
  `ThreadEarly.EarlyTimeout`).
- A `getdents` call without room for one entry loses that entry (`Ext4Getdents.EveryEntryOnce`,
  `EntryLost`).
- Giving the same bytes back to `munmap` twice breaks the free list (`HeapModel.InsertExact`, `FreedTwice`).
- `json_extract_string` takes the value `:` for a key of that name (`TelegramObject.MembersSeek`,
  `ColonMistaken`), and reads the prompt, not the user's text, out of the request to the model
  (`ChatExtract`).
- A URL that was accepted with a default port and a path that does not start with a slash is read back as
  another one, `http://a:80?x` for instance (`CrawlerUrl.ParsedOK`, `QueryLost`).
- A port of 2^32 or more wraps to a port (`CrawlerUrl.PortExact`, `WrappedPort`).

## Model

| member | source | states |
|---|---|---|
| ThreadModel.WakeKeeps | port/thread_shim.c:259-265 | waking a parked thread keeps the ready list equal to the READY threads, once each |
| ThreadModel.ScanEffect | port/thread_shim.c:307-331 | a scan wakes only threads with a deliverable signal or a deadline that has passed, and leaves nobody parked who is due |
| ThreadModel.WakeEffect | port/thread_shim.c:873-889 | a futex wake wakes only waiters on its address, as many as it reports, and leaves none if it reports fewer than asked |
| ThreadModel.SwitchKeeps | port/thread_shim.c:343-374 | taking the head of the queue as `g_current` keeps the queue exact once the old thread is not RUNNING |
| ThreadModel.RequeueKeeps | port/thread_shim.c:350-353 | a yielding thread goes to the back and the queue stays exact |
| ThreadModel.LowestFrom | port/thread_shim.c:492-494 | the signal picked is the lowest-numbered one of the set |
| ThreadSteps.AllocFrom | port/thread_shim.c:641-648 | the slot found is the lowest free one at or above the start |
| ThreadSteps.FindTidFrom | port/thread_shim.c:290-296 | once the scheduler is active: the thread found is the first live one with the tid, if any |
| ThreadInvariant.InitInv | port/thread_shim.c:627-639 | the state after initialisation satisfies the invariant |
| ThreadPreserved.StepKeeps | port/thread_shim.c:238-396 | every step, a tick anywhere included, keeps the scheduler invariant: queue, stacks, masks, wait records |
| ThreadPreserved.SetMaskLocal | port/thread_shim.c:1028-1041 | changing the blocked mask keeps every tick and delivery in progress able to restore the mask it found |
| ThreadPreserved.ExitSwitchKeeps | port/thread_shim.c:784-803 | the last switch of an exiting thread frees its slot and keeps the invariant |
| ThreadPreserved.PublishKeeps | port/thread_shim.c:718-721 | publishing a cloned thread queues a slot that nobody else fills |
| ThreadPreserved.RunInv | port/thread_shim.c:238-396 | every state of every run satisfies the invariant |
| ThreadModel.WakeCounts | port/thread_shim.c:873-889 | the count is the number of threads made READY, and those are the waiters lowest in the table |
| ThreadCalls.WakeAnswer | port/thread_shim.c:873-889 | FUTEX_WAKE for n threads returns the number of threads parked on the address that its one scan made READY, at most n, and fewer only if nobody is left parked there; 0 and nothing done for n <= 0 |
| ThreadCalls.NoLostWakeup | port/thread_shim.c:832-889 | a FUTEX_WAKE for n threads that returned fewer than n leaves nobody parked on the word with expected value v as long as the word has differed from v since the request |
| ThreadRequests.WaitAnswer | port/thread_shim.c:832-871 | FUTEX_WAIT on an address for a value returns 0 only if the caller parked while the word was that value and a FUTEX_WAKE on the address woke it since; -110 only with a timeout that has passed since the request, unless it overflowed the clock; -4 only if a signal not blocked was pending; -11 only if the word differed |
| ThreadRequests.WaitRefused | port/thread_shim.c:832-845 | FUTEX_WAIT returns -11 at once if the word differs when it first looks, and otherwise -4 at once if a signal not blocked is pending then |
| ThreadRequests.SleepRefused | port/thread_shim.c:948-984 | a sleep returns -4 at once if a signal not blocked is pending when it looks, and otherwise 0 at once if the target has been reached |
| ThreadRequests.SleepAnswer | port/thread_shim.c:948-984 | a sleep returns 0 only once the clock has reached the target, and -4 only for a pending signal that is not blocked |
| ThreadRequests.MaskAnswer | port/thread_shim.c:1018-1043 | rt_sigprocmask leaves blocked what it found plus, minus, or just the signals listed, 9 and 19 and numbers that are no signal aside |
| ThreadRequests.KillAnswer | port/thread_shim.c:1045-1071 | tkill makes the signal pending for the first live thread with the tid; -3 without one, -22 for no signal, nothing for 0 |
| ThreadRequests.ActionAnswer | port/thread_shim.c:993-1016 | rt_sigaction sets that one action and nothing else; -22 and nothing for 9, 19 and numbers that are no signal |
| ThreadLifecycle.CloneAnswer | port/thread_shim.c:668-724 | clone returns a tid greater than any given out before, of a thread in the lowest free slot that became READY with its creator's mask and the address to clear; -11 and nothing done if no slot was free |
| ThreadLifecycle.ExitAnswer | port/thread_shim.c:760-803 | a thread that is gone has set the word its creator named to 0 and then woken one thread parked there, if there was any; its slot is free |
| ThreadLifecycle.TidsDistinct | port/thread_shim.c:678-683 | in every run no two thread records hold the same tid, and all are below the next one |
| ThreadTicks.YieldAnswer | port/thread_shim.c:343-396 | a yield that has returned put its thread at the back of the queue and made the head `g_current` once |
| ThreadTicks.TickAnswer | port/thread_shim.c:563-573 | a tick that is over has scanned the table and then begun the delivery of the lowest signal pending and not blocked, if any; if it found its thread RUNNING and, looking at the queue, anybody READY, it handed the CPU over, and otherwise not |
| ThreadTicks.IdleScans | port/thread_shim.c:384-394 | between finding nobody READY and looking again, in `reschedule` and in an exit, every thread whose deadline has passed or who has a signal due is woken, for that reason |
| ThreadWaits.WaitStory | port/thread_shim.c:832-871 | any wait in progress has exactly one park and at most one wake since, and the wake's reason stays on record |
| ThreadWaits.ClearedStory | port/thread_shim.c:864-867 | the reason a wait has read is that of the one wake that ended its park |
| ThreadWaits.ReturnValue | port/thread_shim.c:832-984 | each result of `futex_wait` and `sleep_until` is justified: timeout only past the deadline, EINTR only with a deliverable signal, EAGAIN only while the word differs from the expected value, at entry or since the re-check with IRQs off, 0 only after a wake on that address or once the clock got there |
| ThreadWaits.Checked | port/thread_shim.c:851-858 | in every state of every run, a wait about to return from the re-check still sees the word that made it |
| ThreadWaits.ParkedStep | port/thread_shim.c:259-331 | the record of a parked thread that is not running changes only by a signal raised to it, or by a wake its reason justifies |
| ThreadWaits.ClockGrows | port/thread_shim.c:307-331 | the clock never runs back along a run |
| ThreadDeadlines.DeadlineStory | port/thread_shim.c:847-860 | every futex wait past its set-up took its deadline at one step, from the clock there, and kept it since |
| ThreadDeadlines.TimedOutInTime | port/thread_shim.c:847-870 | a futex wait that returns ETIMEDOUT was given a timeout, and has lasted at least that long unless clock plus timeout reached 2^64 |
| ThreadDeadlines.WrappedDeadline | port/thread_shim.c:847-850 | the deadline is the time asked for exactly below 2^64; otherwise it is due at once, unless the sum is 2^64 and means none |
| ThreadEarly.EarlyTimeout | port/thread_shim.c:847-870 | from any start-up state whose clock is not 0, a run in which a futex wait for almost 2^64 ns returns ETIMEDOUT before the clock has moved |
| ThreadFairness.BoundedWaiting | port/thread_shim.c:238-257 | the thread at position k of the ready queue is at k - d after d dequeues and becomes `g_current` at dequeue k + 1, whatever else happens |
| ThreadFairness.Fifo | port/thread_shim.c:238-257 | a step that takes the head moves every place up by one and makes the first current; any other leaves places alone |
| ThreadFairness.QueueSteps | port/thread_shim.c:343-396 | a step either takes the head as `g_current` or only appends to the queue |
| ThreadFairness.SchedulerSafe | port/thread_shim.c:343-396 | in every run: the queue is exactly the READY threads, at most the current thread is RUNNING, user code runs with IRQs on, and every switch of `g_current` happens with IRQs off before and after |
| ThreadFairness.SwitchMasked | port/thread_shim.c:365-374 | a step that changes `g_current` starts and ends with IRQs off |
| ThreadSignals.TickRestoresMask | port/thread_shim.c:523-551 | when a tick that interrupted a thread is done, whatever it nested, the blocked mask is what the tick found |
| ThreadSignals.DeliveredUnblocked | port/thread_shim.c:486-551 | a running handler's signal was not blocked in the mask found on entry; whether it was still pending then, DeliveryStory says, and whether there is a handler to run, DeliveryActs |
| ThreadActions.DeliveryActs | port/thread_shim.c:471-516 | from the clearing of signal x to the end of that delivery, or of the process: at the action the mask is as found and no handler has run; the process ends exactly if x is 9, or has the default action and is none of 17 to 23 and 28; an ignored one, or one of those eight by default, leaves everything as it was; otherwise the handler is next |
| ThreadActions.HaltedBy | port/thread_shim.c:500-516 | the process ends at a step exactly if that step is the action of such a signal |
| ThreadActions.DeliveryEnds | port/thread_shim.c:486-551 | a delivery that is over ran the handler exactly if there was one; it ran with what was found blocked, the action's mask and, without SA_NODEFER, its own signal blocked; SA_RESETHAND takes effect after it; the mask is as found |
| ThreadSignals.LowestFirst | port/thread_shim.c:486-494 | delivery picks the lowest deliverable signal, and none only when there is none |
| ThreadSignals.ClearedByDelivery | port/thread_shim.c:496-498 | a pending bit goes away only by that signal's own delivery |
| ThreadDelivery.DeliveryStory | port/thread_shim.c:486-498 | a delivery about to clear a signal chose it, lowest and pending, at one earlier step; it is no longer pending exactly if a delivery nested in this one cleared it and nobody raised it since |
| ThreadDelivery.HandledTwice | port/thread_shim.c:486-551 | a run from start-up in which one signal is raised once and its handler returns and then runs again |
| ThreadSignals.NestingBounded | port/thread_shim.c:523-551 | without SA_NODEFER and handlers that unblock, at most 64 handlers nest |
| ThreadSignals.DepthBound | port/thread_shim.c:526-527 | each handler in progress adds a signal to the blocked set of those inside it |
| ThreadShim.Scheduler.EnqueueReadyLocked | port/thread_shim.c:238-246 | the linked list afterwards spells the old queue with the thread at the end |
| ThreadShim.Scheduler.DequeueReadyLocked | port/thread_shim.c:248-257 | unlinks the head and nothing else; null exactly when the queue is empty |
| ThreadShim.Scheduler.WakeThreadLocked | port/thread_shim.c:259-265 | the records and the list afterwards are those of the step system's wake |
| ThreadShim.Scheduler.ScanTimeouts | port/thread_shim.c:307-331 | the table scan with its clock read at most once does what one scan step does |
| ThreadShim.Scheduler.FutexWakeScan | port/thread_shim.c:876-887 | the loop with its early stop wakes the same threads, in the same order, as the wake step |
| ThreadShim.Scheduler.FutexWake | port/thread_shim.c:873-889 | nothing before the scheduler is active or for n <= 0, otherwise the wake step; IRQs are on again |
| ThreadShim.Scheduler.Reschedule | port/thread_shim.c:343-396 | one round does what the step system's round does, and leaves IRQs off exactly when it switches |
| ThreadShim.Scheduler.Park | port/thread_shim.c:851-860 | the word is looked at again with IRQs off and the thread parks exactly if it is unchanged |
| ThreadShim.Scheduler.ExitSwitch | port/thread_shim.c:784-799 | hands the CPU to the head and frees the exiting slot, or leaves everything as it was |
| ThreadShim.Scheduler.AllocThreadSlot | port/thread_shim.c:641-648 | the lowest free worker slot, or null when there is none |
| ThreadShim.Scheduler.FindThreadByTid | port/thread_shim.c:281-296 | the first live thread with the tid, or null; before the scheduler is active the main thread for 1 and nobody else |
| ThreadShim.Scheduler.ThreadShimInit | port/thread_shim.c:627-639 | the first call makes the main thread RUNNING with tid 1, later calls change nothing |
| ThreadShim.Scheduler.Publish | port/thread_shim.c:718-721 | the filled slot becomes READY at the back of the queue |
| HeapModel.CanonicalUnique | port/posix_shim.c:244-255 | a set of free bytes has at most one sorted, gapped block list |
| HeapModel.InsertEffect | port/posix_shim.c:264-294 | a free keeps the list sorted, disjoint and coalesced, and adds exactly the freed bytes |
| HeapModel.InsertExact | port/posix_shim.c:264-294 | the list keeps its normal form exactly if none of the bytes freed was free already |
| HeapModel.FreedTwice | port/posix_shim.c:264-294 | giving a block back twice in a row leaves no list in normal form |
| HeapModel.FreeOrderIrrelevant | port/posix_shim.c:244-294 | the list depends only on which bytes were freed, not on order or division of the frees |
| HeapModel.TakeEffect | port/posix_shim.c:298-320 | an allocation removes exactly its n bytes and keeps the normal form |
| HeapModel.FirstFitLowest | port/posix_shim.c:296-320 | first fit takes the lowest address where n free bytes start and fails only if no such run exists |
| HeapArena.MapKeeps | port/posix_shim.c:190-241 | what `mmap` hands out is page-aligned and held by nobody, and the partition of bytes survives |
| HeapArena.UnmapKeeps | port/posix_shim.c:348-356 | unmapping moves the pages from their holder to the free set, disjoint from what was free |
| HeapArena.StepKeeps | port/posix_shim.c:117-153 | every call keeps the partition, grants only bytes nobody holds, and moves neither `heap_cur` nor `heap_end` back |
| HeapArena.RunKeeps | port/posix_shim.c:117-356 | the same along any run |
| HeapArena.NoDoubleGrant | port/posix_shim.c:128-153 | in any run no byte is granted twice without an unmap of it in between |
| HeapArena.MappedPagesConserved | port/posix_shim.c:244-255 | a byte `mmap` ever took is at any later time mapped or in exactly one free block |
| HeapArena.FreeListDetermined | port/posix_shim.c:244-294 | the free list is a function of what is mapped now and what ever was |
| HeapShim.FreeList.Walk | port/posix_shim.c:269-274 | following the links in memory stops at the block's place in address order |
| HeapShim.FreeList.LinkNew | port/posix_shim.c:266-280 | the header written in the freed memory makes the chain spell the list with the block in its place |
| HeapShim.FreeList.FreeListInsert | port/posix_shim.c:264-294 | after coalescing, the chain read out of memory is the inserted list; no byte outside free blocks changes |
| HeapShim.FreeList.FindFit | port/posix_shim.c:300-304 | the walk stops at the first block large enough, or at the end |
| HeapShim.FreeList.FreeListAlloc | port/posix_shim.c:298-320 | first fit on the chain in memory, cutting the block in place |
| HeapShim.FreeList.AllocZeroed | port/posix_shim.c:337-339 | reused memory comes back zeroed with the rest of the list intact |
| HeapShim.Heap.constructor | port/posix_shim.c:82-93 | the arena before its first use satisfies the invariant, nothing handed out |
| HeapShim.Heap.HeapInit | port/posix_shim.c:85-93 | the first call sets the window up without handing anything out; later calls change nothing |
| HeapShim.WantMib | port/posix_shim.c:101-105 | the MiB asked for are the fewest that hold the bytes needed, at least one, except that a need within a MiB of 2^64 comes to one |
| HeapShim.Heap.HeapGrow | port/posix_shim.c:101-115 | `heap_end` becomes the host's answer if larger, one MiB or more further, and is image base plus whole MiB; a host that adds the whole MiB needed makes it grow by what was needed |
| HeapShim.Heap.SysBrk | port/posix_shim.c:117-153 | the break becomes the address asked for exactly if that is between it and the arena's end; a request above `heap_end` asks the host once, and is granted if the host adds the difference rounded up to MiB; exactly the passed-over bytes are granted |
| HeapShim.Heap.MakeRoom | port/posix_shim.c:221-235 | the grow loop ends for any host; it succeeds at once if the host adds what is missing, and fails only if the last answer added nothing and the request does not fit |
| HeapShim.Heap.HeapAlloc | port/posix_shim.c:190-241 | grants zeroed, page-aligned bump memory, or null only in that case |
| HeapShim.Heap.SysMmap | port/posix_shim.c:322-346 | -19 for non-anonymous or non-positive lengths; else a zeroed page-aligned range nobody held and the caller now does, or -12, which a host that adds what is missing excludes; other holders' contents are untouched |
| HeapShim.Heap.SysMunmap | port/posix_shim.c:348-356 | null or non-positive requests change nothing; else the pages become free and other holders' contents are untouched |
| NetModel.PushAppends | port/net_shim.c:266-268 | writing at the tail of a ring that is not full appends to its queue |
| NetModel.PopDrops | port/net_shim.c:444-446 | reading at the head takes the oldest entry |
| NetModel.CatQueues | port/net_shim.c:195-198 | chaining a pbuf adds its bytes after those queued |
| NetModel.ReadOneTakes | port/net_shim.c:530-551 | one read hands out the front of the queued bytes and frees the first pbuf exactly when used up |
| NetModel.DrainTakes | port/net_shim.c:653-660 | the recv loop hands out as long a prefix of the queued bytes as fits and keeps the rest |
| NetModel.DrainSplit | port/net_shim.c:653-660 | reading a bytes and then b is reading a + b, in bytes, chain and pbufs freed |
| NetModel.FlattenCut | port/net_shim.c:882-911 | the buffers of a recvmsg hold all the data between them, in order, none more than its length |
| NetModel.ScatterIsRecv | port/net_shim.c:882-911 | recvmsg on a stream is one recv of the total capacity cut up over the buffers |
| NetTable.RingExcludes | port/net_shim.c:230-271 | a ring entry is owned by its listener, is not the listener, and is an established or reset stream |
| NetTable.OwnedOnce | port/net_shim.c:145-151 | a slot in use is the application's or in exactly one place of one ring |
| NetTable.RingNeverFull | port/net_shim.c:236-241 | by pigeonhole the queue-full refusal is unreachable |
| NetTable.EnqueueSlot | port/net_shim.c:243-268 | a new connection's slot joins one ring and the partition survives |
| NetTable.DequeueSlot | port/net_shim.c:444-448 | the oldest slot leaves its ring for one new owner and the partition survives |
| NetTable.RecvLedger | port/net_shim.c:181-201 | received bytes equal handed-out plus queued bytes after a delivery |
| NetTable.ReadOneKeeps | port/net_shim.c:530-551 | after a read too, with credits equal to bytes handed out while the pcb lives, and each pbuf freed once |
| NetTable.UdpPushKeeps | port/net_shim.c:273-289 | the datagram ring is a FIFO of whole datagrams with their senders |
| NetTable.UdpPopKeeps | port/net_shim.c:557-582 | taking a datagram frees its pbuf once and leaves the others in order |
| NetTable.TcpLook | port/net_shim.c:613-622 | queued bytes come first, then the end of the stream, then -104 for a failed socket and -107 for one closed or listening; otherwise the call waits |
| NetTable.PollNow | port/net_shim.c:1056-1096 | each bit poll reports, by socket type and state: error only with an errno on record, hang-up for failed and unconnected streams, half-close at the end of a stream, output when a send would take something or fail |
| NetTable.PollMatchesRecv | port/net_shim.c:1056-1096 | POLLIN agrees with recv not waiting, exactly unless the stream was never connected |
| NetShim.NewStreamDisagrees | port/net_shim.c:1056-1096 | on a stream socket just made recv fails at once with ENOTCONN and poll reports no input |
| NetTable.PollMatchesAccept | port/net_shim.c:1063-1066 | for a listener POLLIN agrees with accept not waiting |
| NetTable.Settled | port/net_shim.c:1126-1178 | every pbuf that arrived for a slot now free has been freed |
| NetShim.SockTable.constructor | port/net_shim.c:143-151 | the empty table satisfies the invariant |
| NetShim.SockTable.AllocSlot | port/net_shim.c:145-151 | the lowest free slot, or -1 when there is none |
| NetShim.SockTable.OnRecv | port/net_shim.c:181-201 | data is queued, or freed when reported with an error; nothing else changes |
| NetShim.SockTable.OnFin | port/net_shim.c:186-189 | the stream is marked ended and nothing else changes |
| NetShim.SockTable.OnConnected | port/net_shim.c:217-228 | a connecting socket becomes connected, or failed with ECONNREFUSED |
| NetShim.SockTable.OnErr | port/net_shim.c:203-215 | the pcb is forgotten and the errno is the one for state and cause |
| NetShim.SockTable.OnAccept | port/net_shim.c:230-271 | a new connection takes the lowest free slot and the end of the ring; refusal means the table is full |
| NetShim.SockTable.OnUdpRecv | port/net_shim.c:273-289 | queued whole at the end, dropped and freed only when eight are waiting |
| NetShim.SockTable.Socket | port/net_shim.c:293-326 | -97 exactly for domains other than 2 and types whose low byte is neither 1 nor 2; -24 exactly when no slot is free; else a free slot becomes the application's, of that type, non-blocking if bit 11 says so, with nothing queued and 30 s limits |
| NetShim.SockTable.Listen | port/net_shim.c:395-421 | only a stream becomes a listener, its ring and owner unchanged |
| NetShim.SockTable.ConnectStart | port/net_shim.c:493-508 | EALREADY, EISCONN and EINVAL by state; else the connection is under way, or refused at once; nothing else changes |
| NetShim.SockTable.ConnectDgram | port/net_shim.c:483-491 | a datagram socket becomes connected, or is refused and unchanged |
| NetCalls.Net.Connect | port/net_shim.c:473-528 | what is answered at once, and the socket it leaves; after the wait the handshake's outcome, SO_ERROR being consumed; EINPROGRESS, ETIMEDOUT and EINTR each with their cause and the socket still connecting or the sleep interrupted |
| NetShim.SockTable.AcceptPop | port/net_shim.c:444-456 | the oldest waiting slot becomes the application's |
| NetShim.SockTable.BsockRead | port/net_shim.c:530-551 | one read as specified, invariant and ledger kept |
| NetShim.SockTable.RecvQueued | port/net_shim.c:653-660 | the loop comes to one maximal read |
| NetShim.SockTable.ScatterQueued | port/net_shim.c:901-911 | the nested loops come to one maximal read of the total capacity, cut up |
| NetShim.SockTable.UdpDoRecvv | port/net_shim.c:557-582 | the oldest datagram, truncated to the capacity and flagged if so, with its sender |
| NetShim.SockTable.CloseQueuedConn | port/net_shim.c:1106-1124 | the oldest waiting connection's pbufs are freed and its slot is free |
| NetShim.SockTable.Close | port/net_shim.c:1126-1178 | the slot and every slot waiting in its ring become free with all their pbufs freed; all others are untouched |
| NetCalls.TimedOutIs | port/net_shim.c:162-165 | counting in 32 bits, a limit is over exactly once the time passed, less whole turns of the counter, reaches it; 0 is no limit |
| NetCalls.Net.TcpWaitRx | port/net_shim.c:611-633 | what is there is reported without polling, and if nothing is it polls; every answer is true of the socket on return or has its cause: one poll without blocking, the time limit passed, a signal |
| NetCalls.Net.UdpWaitRx | port/net_shim.c:590-606 | the same for datagrams |
| NetCalls.Net.Accept | port/net_shim.c:423-471 | a descriptor is that of the oldest connection, now the application's; a waiting one is taken without polling; each error has its cause |
| NetCalls.Net.Recv | port/net_shim.c:635-660 | on a stream the queued bytes that fit come first, whatever became of the connection, then 0 bytes at its end; -104 and -107 only with nothing queued, no end, and the socket failed, or closed or listening; other errors have their cause in the wait; it never waits when poll reports input |
| NetCalls.Net.RecvMsg | port/net_shim.c:851-911 | the same slot, ledger and bytes as one recv of the total capacity, bytes first and errors last as there; a datagram with its sender |
| DlfcnModel.StoredIsPrescribed | port/dlfcn_shim.c:202-236 | the word stored is the one section 4.4.1 of the psABI prescribes, exactly unless the symbol is absolute and the module moved |
| DlfcnModel.AbsoluteWrong | port/dlfcn_shim.c:218-236 | an absolute symbol's word in a module loaded 4096 bytes up is 4096 too large |
| DlfcnModel.BaseShift | port/dlfcn_shim.c:209-236 | another base moves module-local words by the difference and leaves host exports alone |
| DlfcnModel.LookupFirst | port/dlfcn_shim.c:122-129 | the first export of a name counts |
| DlfcnModel.WordRead | port/dlfcn_shim.c:213-216 | the eight bytes stored read back as the word |
| Bytes.LittleEndian | port/ext4_shim.c:593-595 | the lowest byte of a stored number comes first |
| Bytes.DecodeEncode | port/ext4_shim.c:593-595 | a number stored in enough little-endian bytes reads back |
| DlfcnTables.ReadDynamic | port/dlfcn_shim.c:339-370 | the loop over the dynamic array keeps the last entry of each tag |
| DlfcnTables.DynsAre | port/dlfcn_shim.c:345-348 | the dynamic array is read as 16-byte entries, tag and value, up to the first tag 0 |
| DlfcnTables.LastIs | port/dlfcn_shim.c:348-370 | an entry with no later one of its tag is the one that counts |
| DlfcnTables.TablesStay | port/dlfcn_shim.c:202-240 | symbols, names and relocation entries read the same while no byte of theirs changes |
| DlfcnRaw.RawRela | port/dlfcn_shim.c:208-211 | an entry's target, symbol and addend by byte position; its type is the low half of r_info, and 1, 6, 7 and 8 are R_X86_64_64, GLOB_DAT, JUMP_SLOT and RELATIVE |
| DlfcnRaw.RawSym | port/dlfcn_shim.c:220-225 | a symbol's name, section (0 undefined, 0xfff1 absolute) and value by byte position |
| DlfcnRaw.RawEntry | port/dlfcn_shim.c:202-236 | whether an entry is applied, and the word stored, from its bytes: B + A for type 8, S + A for 1, S for 6 and 7, and no other type |
| DlfcnRaw.RawPrescribed | port/dlfcn_shim.c:202-236 | that word is the one of table 4.10 of the psABI exactly unless the symbol's section is 0xfff1 and the module moved |
| DlfcnShim.LayoutIs | port/dlfcn_shim.c:339-375 | tags 6, 5, 7, 8, 23 and 2 give the tables, and the second number of the table of tag 4 how many symbols there are |
| DlfcnShim.TablesThere | port/dlfcn_shim.c:371-375 | the tables are missing exactly if tags 6, 5 or 4 are, or the hash table counts no symbols |
| DlfcnShim.LookupExport | port/dlfcn_shim.c:122-129 | the first export of that name, or null |
| DlfcnShim.ApplyRelocs | port/dlfcn_shim.c:202-240 | entries and symbols are read from the block being patched; succeeds exactly if every entry can be applied, then only the target words changed; else reports the first that cannot |
| DlfcnShim.Span | port/dlfcn_shim.c:297-312 | the smallest range holding all segments |
| DlfcnShim.CopySegments | port/dlfcn_shim.c:328-337 | file bytes then zeros, for every segment |
| DlfcnShim.RelocatedTwice | port/dlfcn_shim.c:377-386 | two tables applied in turn are one table applied |
| DlfcnShim.Dlopen | port/dlfcn_shim.c:295-411 | each failure in order, missing tables exactly if the dynamic array in the image names no symbols or strings; success exactly if every relocation entry, by its bytes, has a known type and a symbol with an address, each word then being the one its bytes ask for, the rest of the image from the file and the tables intact |
| DlfcnShim.TablesDetermined | port/dlfcn_shim.c:339-375 | the tables found do not depend on what the allocator left between the segments |
| DlfcnShim.LoadPrescribed | port/dlfcn_shim.c:202-240 | all words of a loaded module are as the psABI prescribes, exactly unless it refers to an absolute symbol |
| DlfcnSample.SampleWellFormed | port/dlfcn_shim.c:339-375 | a module of 192 bytes that holds its dynamic array, hash table, symbols, strings and relocation meets all that is asked of a module |
| DlfcnSample.LoadsWrong | port/dlfcn_shim.c:202-240 | any load of it at 4096 stores 4104 for its absolute symbol, where 8 is prescribed |
| DlfcnSample.AbsoluteLoaded | port/dlfcn_shim.c:244-411 | opening it succeeds and gives that block |
| DlfcnKinds.KindsLoaded | port/dlfcn_shim.c:202-411 | a 344-byte module with one relocation of each of the four types, loaded at 4096 with an export at 70000, has the words 4196, 70000, 70005 and 4112 |
| DlfcnShim.TwoBases | port/dlfcn_shim.c:202-240 | loads at two bases differ in relocated words only, by the base difference or not at all |
| DlfcnShim.Dlsym | port/dlfcn_shim.c:413-428 | the first symbol in the table in the block whose section is not 0 and whose name, not at offset 0, is that name, moved by the bias |
| Ext4Getdents.WalkPacked | port/ext4_shim.c:574-600 | walking packed records by length gives back every entry in order |
| Ext4Getdents.RecordBytes | port/ext4_shim.c:535-600 | a record byte by byte: inode, zeros, length, type (8 file, 4 directory, 2 and 6 devices, 1 fifo, 12 socket, 10 link, 0 unknown), name, NULs to the next multiple of eight |
| Ext4Getdents.PackFields | port/ext4_shim.c:588-598 | each field and the NUL-terminated name read back |
| Ext4Getdents.FittingIsMaximal | port/ext4_shim.c:574-587 | a call delivers as many entries as fit |
| Ext4Getdents.FittingUnique | port/ext4_shim.c:574-587 | entries packed one after the other up to one that does not fit are all that fit |
| Ext4Getdents.EveryEntryOnce | port/ext4_shim.c:558-604 | the calls deliver every entry they pass, once and in order, exactly if each has room for the next entry; enough calls pass the whole directory |
| Ext4Getdents.NoneLost | port/ext4_shim.c:574-587 | a call without room passes an entry it does not deliver |
| Ext4Getdents.EntryLost | port/ext4_shim.c:574-587 | a directory of one entry of which two calls, the first with 8 bytes, deliver nothing |
| Ext4Getdents.Getdents | port/ext4_shim.c:558-604 | ENOTDIR for no directory; whole 8-aligned records within the buffer, the next entry pushed back; EINVAL loses the entry |
| TelegramJson.KeptIs | telegram_groq_bot.c:243-272 | what survives escaping is every byte but the control characters other than tab and newline |
| TelegramJson.DecodeTokens | telegram_groq_bot.c:164-186 | any JSON string decodes to what its parts mean: newline, return, tab, quote, backslash and slash escapes to that byte, Unicode escapes and unknown ones to nothing |
| TelegramJson.ShortUnicode | telegram_groq_bot.c:176-179 | a Unicode escape cut short takes the rest of the text |
| TelegramJson.FittingIsMaximal | telegram_groq_bot.c:243-272 | the escaper stops at a whole escape, and only when the next does not fit |
| TelegramJson.JsonEscapeAppend | telegram_groq_bot.c:243-272 | appends the escapes of the longest prefix that fits and a NUL |
| TelegramJson.DecodeEscape | telegram_groq_bot.c:153-189 | decoding an escaped text gives its bytes minus the dropped control characters, as far as they fit |
| TelegramJson.FindAfterPrefix | telegram_groq_bot.c:155-162 | the key is found where it was put exactly if the pattern does not occur before |
| TelegramJson.ExtractEscaped | telegram_groq_bot.c:153-189 | extracting undoes escaping, whatever comes before and after, if the pattern does not occur before |
| TelegramJson.ExtractTruncated | telegram_groq_bot.c:153-189 | also after the escaper ran out of room, under the same condition: a prefix of the same result |
| TelegramJson.PatternWhole | telegram_groq_bot.c:155-156 | the search pattern is whole exactly for keys of up to 59 bytes |
| TelegramJson.JsonExtractString | telegram_groq_bot.c:153-189 | the loops compute that extraction within the buffer |
| TelegramObject.ValueSkipped | telegram_groq_bot.c:155-162 | no key is found inside an escaped value, from its opening to its closing quote |
| TelegramObject.MembersSeek | telegram_groq_bot.c:155-162 | in an object of string fields the search stops at the first field of that name exactly if no value `:` and no comma before a field named `:` reads like it before |
| TelegramObject.ObjectExtract | telegram_groq_bot.c:153-189 | then what is extracted is the first such field's value less its dropped characters, as far as it fits, and nothing without one |
| TelegramObject.OtherKeysClear | telegram_groq_bot.c:155-162 | that condition holds for every key but `:` and `,` |
| TelegramObject.ColonMistaken | telegram_groq_bot.c:155-162 | an object in which the key `:` yields a comma |
| TelegramObject.BuildPayload | telegram_groq_bot.c:283-291 | head, escapes as far as they fit, and the close only if there is room for all of it |
| TelegramObject.MessageExtract | telegram_groq_bot.c:359-367 | the message sent reads back as its text, as far as it was escaped, for any chat id |
| TelegramObject.ChatExtract | telegram_groq_bot.c:283-291 | the request to the model reads back as the prompt whatever the user wrote: the key occurs twice |
| TelegramUtf8.CutsWholeChars | telegram_groq_bot.c:226-237 | truncation keeps as many whole characters as fit and no part of the next |
| TelegramUtf8.TruncateUtf8 | telegram_groq_bot.c:226-237 | the in-place cut computes that |
| CrawlerUrl.RoundTrip | https_crawler.c:66-103 | parsing what was printed gives the same URL back |
| CrawlerUrl.SchemeAnyCase | https_crawler.c:66-76 | `http://` and `https://` are recognised in any case, and nothing else is accepted |
| CrawlerUrl.PrintedFits | https_crawler.c:170-179 | the printed form never needs truncation |
| CrawlerUrl.ValueDecimal | https_crawler.c:90-95 | the digit loop reads back the printed port |
| CrawlerUrl.Value32Is | https_crawler.c:90-95 | the loop's 32-bit number is the one written modulo 2^32, so exact exactly below 2^31 |
| CrawlerUrl.PortExact | https_crawler.c:88-98 | the port is the number written, or the default if that is no port, exactly unless a number of 2^32 or more wraps to another port |
| CrawlerUrl.WrappedPort | https_crawler.c:90-98 | a port written as 2^32 more is taken for the port |
| CrawlerUrl.ParsedOK | https_crawler.c:66-103 | any accepted text gives a URL that is printed and read back the same, exactly if its path starts with a slash, or its port is not the default, or its host has 127 bytes and its path does not start with a colon |
| CrawlerUrl.QueryLost | https_crawler.c:66-103 | `http://a:80?x` is accepted, printed as `http://a?x`, and read back with another host |
| CrawlerUrl.ParseUrl | https_crawler.c:66-103 | the loops compute that parse |
| CrawlerPath.Idempotent | https_crawler.c:130-166 | normalising a normalised path changes nothing, and the result fits and starts with a slash |
| CrawlerPath.SameDirectory | https_crawler.c:130-166 | the normal form of a text of at most 64 segments that fits leads to the same directory from the root, in any tree |
| CrawlerPath.NamesOnly | https_crawler.c:130-166 | no segment of a normal form is `.` or `..` |
| CrawlerPath.NormalizePath | https_crawler.c:130-166 | the loops compute that normal form |

## Left out

- Registers, FPU and FS state, stack layout and inline assembly: a context switch is a change of `g_current`.
- `sig_eintr`, SA_RESTART and SA_SIGINFO: they change what a handler is told, not the masks or the queue.
- Waits before `thread_shim_init`, and SYS_futex decoding: a requeue is a wake of the sum of its counts.
- `fxarea`, `tls`, entry points and stacks of `clone`: thin bookkeeping beside the slot and the queue.
- `alloc_thread_slot` and the scan of `find_thread_by_tid` run with IRQs on in the source and are one step each here.
- Signal masks are sets of numbers and the clock and tids are unbounded numbers; deadlines wrap at 64 bits.
- ThreadTicks.YieldAnswer: the constant 0 that a yield returns is not recorded.
- HeapShim.Heap.SysMunmap: ranges that are not whole mapped pages; InsertExact says what a second free of the same bytes does to the list, and what it does to memory is not modelled.
- HeapShim.Heap.Store: writes whole words; bytes sharing a word with the unaligned end of a break are not told apart.
- HeapShim.Host: what the host answers is bounded by the memory the machine has.
- `report_oom` prints a message and is not modelled.
- NetCalls.Net.TcpWaitRx: waits are cut off after a chosen number of turns, any number, because a wait without timeout need not end.
- NetCalls.Net.UdpWaitRx: likewise.
- NetCalls.Net.Accept: likewise; the peer's address is not modelled.
- NetCalls.Net.Recv: likewise, and for datagrams the sender is given by `UdpDoRecvv`.
- NetCalls.Net.RecvMsg: likewise.
- Pbuf chains are sequences of payloads with identities rather than linked records; total lengths beyond 16 bits are not modelled.
- NetCalls.Net.Connect: likewise, and lwIP's answers are parameters.
- NetShim.SockTable.AcceptPop: lwIP's backlog accounting and the peer's address are not modelled.
- Sending, socket options, names and `ioctl`: plumbing around lwIP calls.
- Preemption inside `net_shim` or `clone` outside the points named above.
- DlfcnShim.Dlopen: reading the file and its header checks come before, running of constructors after; segments, tables and targets are taken to be in range, and targets not to overlap each other or the tables, which the code does not check.
- Ext4Getdents.Getdents: lwext4's iterator is modelled by the offsets of its entries.
- TelegramJson.JsonExtractString: `strstr` and `snprintf` are taken as specified.
- CrawlerUrl.ParseUrl: signed overflow, which C leaves undefined, is taken to wrap around.
- TelegramObject.BuildPayload: the head is taken to fit, where snprintf() would cut it.
- Link resolution, fetching, TLS, DNS, file system calls other than `getdents`, start-up code and the demonstration programs.
