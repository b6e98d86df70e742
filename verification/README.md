# Verified models of the kernel-module exercises

A Dafny project that models the parts of the repository whose correctness depends on the order of steps: devices
that many threads use at once, drivers that acquire and give back resources on every path, interrupts and timers
that run between two statements, and a device that hands its pages to user space. For each of them it proves what
every interleaving, every run or every input keeps. `dafny verify dfyconfig.toml` checks all of it.

## What is modelled

| file | of the repository | about |
|---|---|---|
| `Kernel.dfy` | all | error numbers, `simple_read_from_buffer`, counting over sequences |
| `LockedObject.dfy` | `06`, `11/events` | calls of the shape "private part, lock, small steps, unlock, private part": every such object is linearizable if each call, run alone, does what its atomic specification says |
| `BufferDevice.dfy`, `BufferLinearizable.dfy`, `BufferRoundTrip.dfy` | `06/pb173.c` | the shared 128-byte buffer: the clamped write with its byte-store loop, reads, chunked use; then the same under any interleaving of single-byte steps, and a program that writes in chunks among any number of readers |
| `MiscDevice.dfy` | `06/pb173.c` | the 32-bit open counter and `char_count` with the ioctl |
| `WriterGate.dfy` | `06/pb173.c` | the single-writer gate, its load and its store as separate steps |
| `StringDevice.dfy` | `11/events/pb173.c` | the ten-byte string with copies that fault half-way |
| `PhantomBind.dfy`, `PhantomRuns.dfy` | `10/example/pb173.c` | minor numbers, the ladder of acquisitions in probe with its `goto` unwinding, remove, loading and unloading; every run of them |
| `PhantomOpen.dfy` | `10/example/pb173.c` | exclusive open under two nested mutexes, with interrupted waits |
| `PageDevice.dfy`, `PageRuns.dfy`, `PageDriver.dfy` | `10/homework/pb173.c` | admission of mappings and translation of faults; every run of mmap, load, store, unmap and exit; the driver's own code |
| `TimerCard.dfy`, `TimerDriver.dfy` | `09/pb173.c` | probe and remove against the self-rearming timer and the shared interrupt; then the driver's own code, statement by statement |
| `DmaCard.dfy`, `DmaRuns.dfy`, `DmaInterrupts.dfy`, `DmaDriver.dfy` | `11/homework/pb173.c` | CPU, DMA engine, timer, handler and tasklet; how far their runs go and for which cards they are right; what becomes of each interrupt; then the driver's own code with its polling loops |
| `PciSnapshot.dfy` | `08/pb173.c` | the list of PCI devices, the two reports, the reference counts |

Code that changes variables and arrays in place is a class with methods that change fields and arrays, and a step-level
machine beside it says what may come between two statements. How the two are tied together:

- `06` devices and `11/events`: the methods are the atomic calls to which the machine's small steps are proved equal.
- `WriterGate`, `PhantomOpen`, `TimerDriver`: the methods end in the state of the machine run without interference
  (`Alone`), which is one of its runs (`AloneIsARun`).
- `PageDriver`: each method is one step of `PageRuns`.
- `DmaDriver`: probe ends in a state that the machine of `DmaCard` reaches (`Reaches`), and handler, callback and tasklet in the
  state to which the machine's steps lead.
- `PhantomBind`: the methods are the functions `Probe` and `Remove`, of which every run of `PhantomRuns` is made.

## Assumptions about the environment

- The VFS passes a non-negative offset, lets through only calls for which offset plus count does not wrap in 64 bits,
  gives every call an offset of its own, and calls release exactly once per successful open.
- `copy_to_user` and `copy_from_user` may stop anywhere; a `copy_from_user` that stops may or may not zero the rest.
- The bus runs probe and remove of a driver one at a time, offers only devices that have no driver, and takes back only
  bound ones. `phantom_remove` does not run while a file of the device is open.
- Locks exclude each other; a step that waits for a lock is not enabled while the lock is held.
- The kernel maps only free address ranges, page-aligned, not empty, and inside the address space; it lets
  through only accesses that the mapping's flags allow, copies a page before a store through a private
  mapping, and keeps the module loaded while a mapping exists. `mprotect` and `mremap` do not happen.
- `del_timer_sync` and `free_irq` wait for callbacks and handlers under way. One interrupt line runs one handler of
  the DMA card at a time; the timer card's model allows any number at once.
- In `09/pb173.c:97` the two arguments of `kmalloc` are swapped; the model takes it that the memory holds a timer.
- No DMA transfer is busy when probe begins, and the page lies below 4 GB.
- What the DMA card does is taken from the comments in the driver and stated at the head of `DmaCard.dfy`.
- The list of PCI devices does not change during one enumeration, and has no device twice.

## What the proofs found

- `06/pb173.c:210`: the test `*off + count > 127` does nothing when the sum wraps. `ClampStaysInside` gives the exact
  condition under which the store stays in front of the last byte; the VFS guarantees it.
- `10/homework/pb173.c:30` and `10/homework/pb173.c:32` test from `PAGE_SIZE` on, but the cascade is right because of its order.
  `10/homework/pb173.c:59` admits page number 4, one behind the last, with any rights; every access to such
  a mapping is SIGBUS (`MappingBehindTheLastPage`).
- `08/pb173.c:164`: the report of removed devices prints, for each list entry, the present devices before the first one with
  its address. It equals the set of removed devices only when both are empty; `RemovedReportIsRightIff` gives
  the condition and `RemovedReportExample` an instance. The plugged-in report is right.
- `08/pb173.c:109` and `08/pb173.c:119`: an init that fails, out of memory or because the driver cannot be registered, keeps the
  references it has taken, unless there are no devices at all.
- `11/homework/pb173.c`: probe never clears what the card has raised before. The promises about tasklet, CMD register and
  notice hold in every interleaving if and only if the card does not have 0x100 raised alone when probe begins
  (`ExactlyWithoutLeftOver`). If it does, the handler takes it for the end of the third transfer: the tasklet is
  scheduled while that transfer is busy, and the write to CMD starts it over (`LeftOverFails`). That has no end: when the
  transfer ends, raising 0x100, between the handler's read of CMD and its write, all is as it was before, any number of
  times (`TransfersWithoutEnd`, `WorkIsBoundedIff`). With 0x1000 raised besides, 0x100 does no harm.
- `11/homework/pb173.c:50` and `11/homework/pb173.c:195`: the transfers overwrite the zero that strcpy wrote, so the tasklet's print
  stays in the page exactly when some byte from number 30 on is zero (`TaskletFn`), and that of probe exactly when one
  from number 20 on is (`MyProbe`).
- `11/homework/pb173.c:70`: the tasklet runs if and only if the handler reads 0x100 alone; when it comes together with the timer's
  0x1000 the notice is lost (`TaskletIffReadAlone`, `ThirdTransferEnds`).

## Model

| member | source | states |
|---|---|---|
| LockedObject.Linearizable | 06/pb173.c:226-233 | for every object whose calls, run alone, refine their atomic specification: in every interleaving of small steps the order in which the calls take effect respects real time and explains all answers, and the data equal that order whenever the lock is free |
| LockedObject.Step | 06/pb173.c:226-233 | every single step of any call keeps the invariant behind that theorem, with the order extended by the call that unlocks or returns early and otherwise unchanged |
| LockedObject.OrderIsNeverRevised | 06/pb173.c:226-233 | whatever happens later, the order of a run extends the order of each earlier part of it |
| LockedObject.SomeCallGoesOn | 06/pb173.c:226-233 | no deadlock: while some call has not returned, some call that has begun can go on |
| LockedObject.CallIsBounded | 06/pb173.c:226-233 | no call takes more actions than its steps under the lock and four, whatever the others do |
| BufferDevice.ClampCountIsLeast | 06/pb173.c:209-215 | without wrap-around the clamped count is the least of the request, the room before byte 127, and five |
| BufferDevice.ClampStaysInside | 06/pb173.c:210-215 | in 64-bit arithmetic the store stays in front of byte 127 exactly when the sum does not wrap or five bytes fit |
| BufferDevice.Device.BufWrite | 06/pb173.c:204-233 | the clamped byte-store loop is one splice of the first min(5, count, room) bytes; all other bytes, and byte 127, stay; 0 behind the end, -EFAULT and no change when the bytes cannot be fetched, otherwise the number stored, by which the offset moves |
| BufferDevice.Device.BufRead | 06/pb173.c:150-161 | a read changes nothing and returns the slice at the offset, cut where the user's buffer faults; -EFAULT exactly when nothing could be copied |
| BufferDevice.SpliceJoins | 06/pb173.c:226-232 | two writes one behind the other are one write |
| BufferDevice.ChunkedWriteIsOneSplice | 06/pb173.c:204-233 | writing the rest until write returns 0 ends, takes as few calls as five bytes a call allow, and equals one splice of the first min(n, 127 - off) bytes |
| BufferDevice.ChunkedReadIsOneSlice | 06/pb173.c:150-161 | reads with any counts join up to one contiguous slice |
| BufferDevice.RoundTrip | 06/pb173.c:150-233 | data of at most 127 bytes written in chunks are read back exactly with any counts that add up to their length |
| BufferDevice.ReadToTheEnd | 06/pb173.c:150-161 | a read returns 0 exactly when all 128 bytes have been read, and then the bytes collected are the buffer |
| BufferLinearizable.BufferIsLinearizable | 06/pb173.c:150-233 | with one byte stored or copied per step, any number of threads and any interleaving, the calls are linearizable to whole reads and writes; byte 127 is zero in every state |
| BufferLinearizable.ByteStepsImplementAtomicCalls | 06/pb173.c:150-233 | the steps of one call, run alone, are the atomic call, and every step leaves the buffer terminated and the indices in bounds |
| BufferLinearizable.StoresAreOneSplice | 06/pb173.c:227-231 | the single-byte stores of one write, one after another, are one splice |
| BufferLinearizable.CopiesAreOneSlice | 06/pb173.c:157 | the single-byte copies of one read are one slice |
| BufferLinearizable.EveryEntryMeans | 06/pb173.c:150-233 | in every run each call answers by value as it should for the buffer at its place in the order, and leaves the buffer it should |
| BufferRoundTrip.BufferEndsAsSplice | 06/pb173.c:150-233 | in every interleaving whose only writes are those of one program that writes on until write returns 0, among any number of readers, the buffer ends as one splice of what fits |
| BufferRoundTrip.LaterReadsSeeIt | 06/pb173.c:150-233 | a call made when that program is done finds that buffer |
| BufferRoundTrip.RoundTripAmongReaders | 06/pb173.c:150-233 | data of at most 127 bytes written so from offset 0 are exactly what a program collects that reads from offset 0 afterwards, in any chunks |
| BufferRoundTrip.WritesUpTo | 06/pb173.c:204-233 | up to each place of the order exactly the program's first writes have been done |
| MiscDevice.DecodeMeaning | 06/pb173.c:93-110 | which command words are accepted: set only with an argument of 1 to 4, -EINVAL for the set command with any other, -ENOTTY exactly for a wrong type or number |
| MiscDevice.Device.MyOpen | 06/pb173.c:38-45 | the counter goes up by one modulo 2^32, which is the atomic call the interleaved steps are proved equal to |
| MiscDevice.Device.MyRelease | 06/pb173.c:47-54 | the counter goes down by one modulo 2^32, and an open would undo it |
| MiscDevice.Device.MyRead | 06/pb173.c:66-90 | five bytes go to the user whatever was asked for: the first `char_count` characters of "Ahoj", a zero, and what the array held before; the return value counts the characters |
| MiscDevice.Device.MyUnlockedIoctl | 06/pb173.c:93-120 | by command, argument and target: a valid set stores and answers 0, one out of range -EINVAL, a wrong type or number -ENOTTY, a get hands out the value and answers 0 or -EFAULT, anything else 0; nothing else is stored |
| MiscDevice.NoLostUpdates | 06/pb173.c:38-54 | in every interleaving of load and store steps, whenever the lock is free the counter is opens minus releases that have taken effect, modulo 2^32 |
| MiscDevice.ReplayIsNet | 06/pb173.c:38-54 | the wrapping counter of any sequential order is the difference modulo 2^32 |
| MiscDevice.NetCountsCalls | 06/pb173.c:38-54 | that difference is one of numbers of distinct calls |
| MiscDevice.ReadersSeeTheLatestSet | 06/pb173.c:66-120 | in the order of unlocks and early returns, which respects real time, every ioctl and every device read answers, by value, for the latest successful set; the variable is in 1 to 4 in every state |
| MiscDevice.ReplayIsLatestSet | 06/pb173.c:66-120 | the value after any sequential order is that of its last set, 4 if there was none, and each answer is for that value |
| WriterGate.SingleWriter | 06/pb173.c:176-202 | in every interleaving `writers` is 0 or 1 and counts the write-mode files, no two of which are open at once |
| WriterGate.RefusedIffAnotherWrites | 06/pb173.c:182-190 | at its load an open is on its way to -EBUSY exactly when another file is writing |
| WriterGate.OnlyWritersLeaveATrace | 06/pb173.c:176-202 | `writers` moves only with the share of the file that moves; refused opens and read-mode files never move it |
| WriterGate.DeadlockFree | 06/pb173.c:176-202 | while a call is unfinished, some unfinished call has a step |
| WriterGate.RunsAreBounded | 06/pb173.c:176-202 | a run of finitely many calls is finite, at most seven actions for an open and six for a release |
| WriterGate.AloneIsARun | 06/pb173.c:176-202 | a call run to its end without interference is one of the interleavings |
| WriterGate.Gate.MyWriteOpen | 06/pb173.c:176-192 | admitted exactly when not writing or nobody writes, otherwise -EBUSY and no change; it ends in the state in which the machine's steps of that file alone end, open or refused |
| WriterGate.Gate.MyWriteRelease | 06/pb173.c:194-202 | gives back exactly a writer's share, and ends in the state of the machine's steps of that file alone |
| StringDevice.Device.CopyFromUser | 11/events/pb173.c:30 | a copy, partial or padded, is the overlay of what it determines; the result is the number of bytes not copied |
| StringDevice.Device.MyWrite | 11/events/pb173.c:24-37 | each of the nine bytes is the one fetched, a padding zero or the old one, the tenth is zero; the answer is count, or -EFAULT exactly when not all of the at most nine bytes could be fetched |
| StringDevice.Device.MyRead | 11/events/pb173.c:12-22 | a slice of the text before the first zero |
| StringDevice.ByteStepsImplementAtomicCalls | 11/events/pb173.c:12-37 | copying, scanning for the zero and terminating byte by byte under the lock refine the atomic calls |
| StringDevice.ScanFindsTheEnd | 11/events/pb173.c:18 | the scan of strlen ends at the first zero, inside the array |
| StringDevice.ReplayIsLatestBytes | 11/events/pb173.c:24-37 | after any sequential order each byte is the one laid by the last write that touches it |
| StringDevice.CallsAnswerText | 11/events/pb173.c:12-37 | each call of an order answers by value for the string the writes before it left: a read a slice of the text, a write its count or -EFAULT |
| StringDevice.StringIsOverlay | 11/events/pb173.c:12-37 | in every interleaving, faults included, the string is terminated in every state, at each unlock it is the fold of all overlays in lock order, and every call answers for the fold before it |
| PhantomOpen.ExclusiveOpen | 10/example/pb173.c:61-97 | in every interleaving `opened` of each device is 0 or 1 and counts its users, and no two files use a device at once |
| PhantomOpen.SucceededMinusReleased | 10/example/pb173.c:61-97 | opens that returned 0 exceed releases begun by at most one |
| PhantomOpen.AtMostOneWinner | 10/example/pb173.c:73-85 | in any part of any run with no release at most one open of a device returns 0 |
| PhantomOpen.BusyIffInUse | 10/example/pb173.c:73-77 | an open is refused exactly when at its test another file uses the device |
| PhantomOpen.StepMovesShare | 10/example/pb173.c:81-93 | each step changes `opened` of its own device by the share of its own file, and no other device |
| PhantomOpen.DeadlockFree | 10/example/pb173.c:66-96 | while a call is unfinished, some unfinished call has a step, without new calls or signals |
| PhantomOpen.ReturnsWithoutLocks | 10/example/pb173.c:66-96 | no call returns, on any path, with a mutex in its hands |
| PhantomOpen.RunsAreBounded | 10/example/pb173.c:61-97 | a run of finitely many calls is finite, at most eight actions for an open and five for a release |
| PhantomOpen.AloneIsARun | 10/example/pb173.c:61-97 | a call run to its end without interference is one of the interleavings |
| PhantomOpen.OpenAlone | 10/example/pb173.c:66-85 | with both mutexes free the steps of one open end with the device opened and the file live, or with -EBUSY and nothing changed, both mutexes free again |
| PhantomOpen.InterruptedAlone | 10/example/pb173.c:68-71 | an interrupted wait ends with -ERESTARTSYS and nothing changed |
| PhantomOpen.ReleaseAlone | 10/example/pb173.c:92-96 | with the device's mutex free the steps of one release end with the device closed and nothing else changed |
| PhantomOpen.Device.PhantomOpen | 10/example/pb173.c:61-86 | both locks are free again on every path, the code tells interrupted, busy and success apart, only success changes the device; code, counter and locks are those with which the machine ends |
| PhantomOpen.Device.PhantomRelease | 10/example/pb173.c:88-97 | counter and lock are those with which the machine's steps of that file alone end |
| PhantomBind.TraceIsMirror | 10/example/pb173.c:211-226 | unwinding from any rung gives back exactly what was taken, each once, last first |
| PhantomBind.HeldOnLadder | 10/example/pb173.c:145-226 | part-way down exactly the lower rungs are held |
| PhantomBind.TraceIsSound | 10/example/pb173.c:145-226 | on any way up and down nothing is given back that is not held |
| PhantomBind.FirstFree | 10/example/pb173.c:127-136 | the least free minor, or the table size exactly when none is free |
| PhantomBind.FirstFailureIs | 10/example/pb173.c:145-201 | the first acquisition that fails is the one that decides the result |
| PhantomBind.ProbeMeans | 10/example/pb173.c:145-226 | answer by answer: probe returns the code of the first call that fails, and takes a resource exactly when its own call and all before it succeed |
| PhantomBind.MinorOfMkDev | 10/example/pb173.c:232 | the minor comes back out of the device number |
| PhantomBind.Driver.PhantomGetFree | 10/example/pb173.c:127-136 | the search loop finds the least free minor |
| PhantomBind.Driver.ProbeLadder | 10/example/pb173.c:145-226 | the labels in their order: for every failing acquisition the events are up to it and down again, the code is its own, table and bindings are as before; without a failure the least free minor is bound |
| PhantomBind.Driver.PhantomProbe | 10/example/pb173.c:138-227 | the `goto` code is the step `Probe` on table, bindings and log, and returns the code of the first call that fails |
| PhantomBind.Driver.PhantomRemove | 10/example/pb173.c:229-252 | the straight code is the way down the whole ladder, event by event, with the minor recovered from the device number |
| PhantomRuns.FailedProbeChangesNothing | 10/example/pb173.c:138-227 | whichever acquisition fails, a probe that returns an error leaves table, bindings and every holding as before |
| PhantomRuns.ProbeSucceedsIff | 10/example/pb173.c:138-227 | probe returns 0 exactly when the table has room and every acquisition but the device node succeeds |
| PhantomRuns.ProbeThenRemoveIsIdentity | 10/example/pb173.c:138-252 | a successful probe and remove restore table, bindings and every holding, with or without the device node |
| PhantomRuns.RunKeepsInv | 10/example/pb173.c:127-252 | in every run the holdings are exactly those of the bound devices, and table and bindings agree |
| PhantomRuns.MinorsAreOwned | 10/example/pb173.c:151-158 | in every run bound devices have different minors, an entry is 1 exactly when a bound device owns it, and remove recovers the minor that probe assigned |
| PhantomRuns.NextProbe | 10/example/pb173.c:127-156 | in every run the next minor is the least one free, and whatever the kernel answers, a probe fails for lack of a minor exactly when the device could be enabled and eight devices are bound |
| PhantomRuns.NothingIsReleasedTwice | 10/example/pb173.c:138-252 | over any run of probes, failed ones included, and removes nothing is released that is not held at that moment |
| PhantomRuns.UnbindAllReturnsEverything | 10/example/pb173.c:305 | whatever is bound, unbinding all in any order empties the table and restores every holding |
| PhantomRuns.PhantomInit | 10/example/pb173.c:269-301 | loading takes class, number range and driver slot, or unwinds what it has and returns the code of the first step that failed |
| PhantomRuns.UnloadsInReverse | 10/example/pb173.c:303-310 | unloading goes down the ladder that loading went up |
| PhantomRuns.LoadRunUnload | 10/example/pb173.c:269-310 | load, any run, unload: nothing is held, no minor is taken, nothing was released that was not held |
| PageDevice.FindPageDivides | 10/homework/pb173.c:25-35 | the overlapping range tests agree with division by the page size |
| PageDevice.FaultPageIs | 10/homework/pb173.c:37-43 | the shift is harmless below 2^52, where exactly pages 0 to 3 exist; beyond it wraps, and what it gives then is stated |
| PageDevice.AdmittedIff | 10/homework/pb173.c:52-74 | which mappings are admitted: at most two pages from page number 0 to 4, the first two only to read, the others to read and write |
| PageDevice.AdmittedTranslation | 10/homework/pb173.c:37-74 | every address of an admitted mapping gets page vm_pgoff + (addr - vm_start) / PAGE_SIZE when below 4 and SIGBUS otherwise; the shift does not wrap |
| PageDevice.MappingBehindTheLastPage | 10/homework/pb173.c:59 | a mapping from page number 4 is admitted with any rights and gives SIGBUS everywhere |
| PageDriver.Driver.MyInit | 10/homework/pb173.c:183-191 | the state in which every run begins; each page begins with its own terminated text, is otherwise as allocated, and no two are alike |
| PageDriver.Driver.MyMmap | 10/homework/pb173.c:52-74 | by size, page number and rights: the fault handler is attached and 0 answered exactly when the mapping is admitted, otherwise -EINVAL |
| PageDriver.Driver.MyFault | 10/homework/pb173.c:37-46 | the machine's fault step: one reference to the page found, none on SIGBUS |
| PageDriver.Driver.MyExit | 10/homework/pb173.c:196-201 | the machine's last step; after any run, with nothing mapped, no page has a reference left |
| PageRuns.AllowedIsEnabled | 10/homework/pb173.c:25-74 | in every run until exit the machine can do everything the kernel lets through |
| PageRuns.FirstTwoPagesAreProtected | 10/homework/pb173.c:25-74 | over every run no mapping that may be written has, or would get, one of the first two pages, and their bytes never change |
| PageRuns.ReferencesAreConserved | 10/homework/pb173.c:37-46 | over every run a page's count is one for the driver plus one per page-table entry that leads to it; never zero while mapped, zero after exit |
| PageRuns.StoreIsSeen | 10/homework/pb173.c:37-46 | a store is seen by exactly the slots that map the same page without a private copy, by its own slot alone if the mapping is private, and by nobody if it is behind the last page; nothing else changes for anybody |
| PageRuns.MmapAddsItsPages | 10/homework/pb173.c:52-74 | an admitted mmap maps exactly the pages of its area with its rights and leaves everything else alone; a refused one changes nothing |
| PageRuns.MmapIsSeen | 10/homework/pb173.c:25-74 | after any run, at every address of a newly admitted mapping one sees the byte of page vm_pgoff + (addr - vm_start) / PAGE_SIZE when that is below 4, and gets SIGBUS otherwise |
| PageRuns.LoadIsUnseen | 10/homework/pb173.c:37-46 | a load changes nothing that anybody sees and installs the page, if there is one |
| PageRuns.UnmapTakesItsPages | 10/homework/pb173.c:37-46 | an unmap takes exactly its pages, and nobody else sees a change |
| PageRuns.RunKeepsInv | 10/homework/pb173.c:25-74 | every run keeps rights, entries, references and the first two pages in order |
| TimerCard.NothingIsUsedAfterItsEnd | 09/pb173.c:34-157 | in every interleaving, over any number of probes, failed ones included, and removes, no statement, callback or handler touches a freed timer, an unmapped BAR, a freed help structure or a field not yet set, and nothing is freed twice |
| TimerCard.StatementsFindWhatTheyUse | 09/pb173.c:76-156 | in every interleaving each statement of probe and remove finds what it uses or gives back |
| TimerCard.TimerNeverStops | 09/pb173.c:52-62 | in every interleaving, from the return of a successful probe until remove deletes it, the timer is armed or its callback is on the way to arm it |
| TimerCard.TimerAndInterrupt | 09/pb173.c:34-62 | exactly which steps arm and disarm the timer, and raise and acknowledge the interrupt |
| TimerCard.TeardownIsFinal | 09/pb173.c:141-156 | past del_timer_sync no callback runs or is due although it re-arms itself, past free_irq no handler runs, and an unbound card holds nothing |
| TimerCard.FreeIrqWaitsBoundedly | 09/pb173.c:150 | while free_irq waits nobody but the handlers under way can step, they do so at most as often as they have steps left, and then, not before, remove goes on |
| TimerCard.DelTimerWaitsForOneCallback | 09/pb173.c:145 | while del_timer_sync has to wait only the callback under way goes on, for at most three steps although it re-arms the timer, and then remove can go on |
| TimerCard.StatementKeepsInv | 09/pb173.c:76-157 | each statement of probe and remove, in the order of the source, keeps the invariant against whatever runs in between |
| TimerCard.CallbacksKeepInv | 09/pb173.c:34-62 | each step of the timer callback and of the handler keeps it |
| TimerDriver.AloneIsARun | 09/pb173.c:64-157 | the uninterrupted code is one of the interleavings of the machine |
| TimerDriver.Driver.MyProbe | 09/pb173.c:64-130 | call by call: it returns the code of the first that fails and leaves behind what it had; if none fails all is held and published, the interrupt requested and the timer armed; either way it ends in the state of the uninterrupted machine |
| TimerDriver.Driver.MyRemove | 09/pb173.c:132-157 | the code ends in the state of the uninterrupted machine, in which nothing is held and no timer is armed |
| TimerDriver.Driver.MyHandler | 09/pb173.c:34-50 | answers "mine" exactly when the card has raised its interrupt, which is acknowledged; it is the machine's handler |
| TimerDriver.Driver.RaiseIntr | 09/pb173.c:52-62 | the interrupt is raised and the timer armed again; it is the machine's callback |
| DmaCard.Commands | 11/homework/pb173.c:170-232 | what the three command words select, which of them interrupt, and that the finished third one with the acknowledge bit is stored as it was and starts nothing |
| DmaCard.MoveIs | 11/homework/pb173.c:159-234 | every byte of every transfer goes from where its copy of the text is to the right place of the next one |
| DmaCard.TaskletSeesThreeCopies | 11/homework/pb173.c:47-234 | in every interleaving of CPU, engine, timer, handler and tasklet, from every card that has not 0x100 raised alone, when the tasklet can run the last transfer is done and the page ranges [0,10), [10,20) and [20,30) are the same text |
| DmaCard.NothingGoesAstray | 11/homework/pb173.c:53-234 | from every such card no register is programmed while a transfer is busy, no byte goes elsewhere, the handler's CMD write starts nothing, the tasklet is never initialised while scheduled |
| DmaCard.NothingCanGoAstray | 11/homework/pb173.c:53-234 | nor is there ever the occasion: at every register write no transfer is busy, what the handler writes to CMD starts none, every byte goes between the page and the card's memory at 0x40000, and the tasklet is not scheduled when initialised |
| DmaCard.TaskletIffReadAlone | 11/homework/pb173.c:66-81 | from every such card, once the last transfer is done and acknowledged the tasklet has been scheduled if and only if the handler read 0x100 alone |
| DmaRuns.ExactlyWithoutLeftOver | 11/homework/pb173.c:53-234 | each of the three promises holds in every interleaving if and only if the card does not have 0x100 raised alone when probe begins |
| DmaRuns.LeftOverFails | 11/homework/pb173.c:66-81 | for every card that has, a run in which the tasklet is scheduled and the handler's CMD write restarts the third transfer before a byte of it has arrived |
| DmaRuns.WorkIsBounded | 11/homework/pb173.c:157-238 | from every card without 0x100 raised alone, in every interleaving engine and CPU do at most 54 actions that are not just another look at a busy card |
| DmaRuns.WorkIsBoundedIff | 11/homework/pb173.c:53-238 | for every card that bound holds, and any bound holds, if and only if 0x100 is not raised alone when probe begins |
| DmaRuns.TransfersWithoutEnd | 11/homework/pb173.c:66-81 | for every card with 0x100 raised alone and every number, a run in which at least so many transfers come to their end |
| DmaInterrupts.RaisedIs | 11/homework/pb173.c:53-95 | for every card exactly which steps raise and acknowledge each of the two interrupts |
| DmaInterrupts.UnreadIsNotAcknowledged | 11/homework/pb173.c:60-67 | for every card and in every interleaving, an interrupt that a handler has not read and that is raised before it acknowledges what it has read is still raised when it returns |
| DmaInterrupts.TimerNeverStops | 11/homework/pb173.c:85-95 | for every card and in every interleaving the timer runs from the return of a successful probe on, and not before |
| DmaInterrupts.PendingIs | 11/homework/pb173.c:85-95 | exactly which steps arm and disarm the timer |
| DmaInterrupts.TaskletRunsOnce | 11/homework/pb173.c:47-81 | from every card without 0x100 raised alone the tasklet runs at most once, and has run or is going to exactly when a handler has scheduled it |
| DmaRuns.ProbeComesTo | 11/homework/pb173.c:157-238 | from every state with sound data engine and CPU alone can bring probe to each later statement, whatever timer, handler and tasklet are at |
| DmaRuns.ProbeCanEnd | 11/homework/pb173.c:157-238 | for every card, in every interleaving, a probe that has not failed can still return 0 by steps of CPU and engine alone |
| DmaCard.StepKeepsInv | 11/homework/pb173.c:47-234 | each step of any of the five keeps the invariant |
| DmaDriver.EngineKeepsData | 11/homework/pb173.c:174-193 | however far the card gets between two reads of CMD, the data are sound and the rest of the page is untouched; with time for ten bytes it finishes, and only the third transfer raises its interrupt |
| DmaDriver.Driver.MyProbe | 11/homework/pb173.c:157-239 | however slow the card and whatever it had raised, it is a run of the machine: the polling loops end, the page is the text twice and the rest as before, its print begins with that and stays in the page exactly when the rest has a zero, and the third transfer is under way; unless 0x100 was raised alone the invariant holds |
| DmaDriver.Driver.Poll | 11/homework/pb173.c:174-175 | the polling loop is a run of the machine that ends for every schedule of the card, keeps the data sound, raises nothing and spares the rest of the page |
| DmaDriver.Driver.MyHandler | 11/homework/pb173.c:53-83 | on whatever card it is the machine's handler: "mine" exactly when something was raised, just that is acknowledged, and the tasklet is scheduled exactly for 0x100 alone |
| DmaDriver.HandlerSound | 11/homework/pb173.c:53-83 | where the invariant holds the handler keeps it and leaves CMD as it was |
| DmaDriver.Driver.ThirdTransferEnds | 11/homework/pb173.c:69-81 | with nothing else raised, the text arrives in both cases, but the tasklet is scheduled only when the timer's interrupt did not come in between |
| DmaDriver.Driver.RaiseIntr | 11/homework/pb173.c:85-95 | on whatever card it is the machine's callback: 0x1000 is added to what is raised and the timer armed again |
| DmaDriver.Driver.TaskletFn | 11/homework/pb173.c:47-51 | it is the machine's tasklet and prints the page from byte 20 to the first zero, if there is one; where the invariant holds that begins with the text, is the text exactly when the byte behind it is zero, and stays in the page exactly when some byte from number 30 on is zero |
| PciSnapshot.SlotAndFuncAreDevfn | 08/pb173.c:135-136 | comparing slot and function is comparing the 8-bit devfn |
| PciSnapshot.Module.MyInit | 08/pb173.c:98-120 | the list is all devices, last first, with one reference more for each entry; out of memory it is the first ones, with one more reference leaked by the enumeration; a failing init leaves the references as they were only when there is no device |
| PciSnapshot.ReverseIs | 08/pb173.c:115 | the list has the last device first |
| PciSnapshot.Module.PciGetDevice | 08/pb173.c:106 | the enumeration visits the devices in order and holds one reference, to the device where it is |
| PciSnapshot.Module.FoundInList | 08/pb173.c:129-140 | the search loop, which does not stop at a hit, finds whether the address is in the list |
| PciSnapshot.Module.ReportPlugged | 08/pb173.c:128-147 | the nested loops report the devices whose address is new, and every reference is back |
| PciSnapshot.Module.ReportBeforeMatch | 08/pb173.c:154-168 | one round of the second loop prints the devices before the first match, to the end of the enumeration, and every reference is back |
| PciSnapshot.Module.MyExit | 08/pb173.c:122-178 | both reports, then each entry gives back its reference and the list is empty |
| PciSnapshot.Module.LoadHotplugUnload | 08/pb173.c:98-178 | load, hot-plug, unload: every reference count is restored and the report is against the devices at load time |
| PciSnapshot.PluggedInAfterLoad | 08/pb173.c:106-147 | a device is reported exactly when it is present and no device at load time had its domain, bus and devfn |
| PciSnapshot.PluggedInKeepsOrder | 08/pb173.c:128-147 | the report keeps the order of the enumeration |
| PciSnapshot.RemovedReportNamesPresent | 08/pb173.c:150-169 | the second report names only devices that are present |
| PciSnapshot.RemovedReportGrows | 08/pb173.c:150-169 | the second report is the reports for the entries one after another |
| PciSnapshot.RemovedReportForOne | 08/pb173.c:154-168 | and that for one entry is the present devices before the first one with its address |
| PciSnapshot.RemovedReportIsRightIff | 08/pb173.c:150-169 | it equals the removed devices if and only if the list is empty or every entry has the address of the first device enumerated |
| PciSnapshot.RemovedReportExample | 08/pb173.c:163-167 | one device replaced by another: the new one is printed |

## Left out

- Earlier copies of the devices in `04/pb173.c`, `03/pb173.c` and `02/pb173.c`; wrappers over kfifo, skbuff and netdevice code in
  `07/pb173.c` and `12/pb173.c`; demonstrations, stubs and deliberate crashes.
- The unlocked library copies in `06/pb173.c:250-273` and `06/pb173.c:309-327`, the write of the miscellaneous device, which only logs,
  and all logging, hex dumps, debugfs files and device names.
- `phantom_write` and `phantom_isr`, and the register accesses of `phantom_probe` and `phantom_remove`.
- Unwinding of the probes in `08`, `09` and `11/homework`: they return without it, so nothing is claimed after a failed one
  but that it is safe.
- Teardown in `11/homework/pb173.c:241-274`, and the second half of its probe paths before the page exists. The model has one
  card; `task` and `dma_virt_addr` are shared by all cards in the source.
- Failing page allocations in `10/homework/pb173.c:183-186`, which the source does not check.
- The ENABLE registers of `09` and `11/homework`: a handler that is registered may be called at any time, enabled or not.
- No claim that the tasklet always runs: see "What the proofs found".
- The interleavings of `09` and `11/homework` are machines on values; the classes beside them run the same statements
  without interference. The mutexes of `06` and `11/events` appear in the machines, not in the classes.
- In `PageRuns`, access rights, page tables and copy on write are a model of the kernel, not of code in the repository; `mprotect`
  and `mremap` are not part of it.
- Fairness: progress is stated as "some step is possible" and by measures, not as "every call returns under every scheduler".
- BufferDevice.Device.BufWrite: whether the copy from user space works is one answer for the clamped count; how much of a failed copy
  reached the private array is not seen by anybody and not modelled.
- TimerCard.DelTimerWaitsForOneCallback: says nothing of how often a timer that has expired again may be served before remove takes
  its step, once it can; that is a matter of fairness.
- PciSnapshot.RemovedReportIsRightIff: compares lists of devices, while the source prints vendor and device numbers, which two devices
  may share.
- DmaDriver.Driver.TaskletFn: what a print that runs past the page shows is not modelled; the answer is then that it does.
