# A verified model of the drivers

This project models the data paths and protocols of the example drivers and proves what they are for. A
driver whose functions update a structure in place is a class with those fields; where many tasks
interleave, a second module is a state machine whose steps are the locked sections, wait-queue
operations and unlocked accesses of the code.

| Files | Subject |
|---|---|
| `Kernel.dfy`, `Geometry.dfy` | bytes, error codes, faulting copies; the division and remainder that address a store |
| `SparseFile.dfy`, `Layout.dfy`, `Scull.dfy`, `ScullRuns.dfy` | the scull store: lists of pointer arrays of blocks, allocated when written, which refine one flat sparse file |
| `GeometryRace.dfy` | scull calls that read the geometry before they lock the device, and a trim in between |
| `ItemList.dfy` | the list of a scull device as linked nodes |
| `Scullp.dfy`, `MmapRace.dfy` | the same store on pages, with memory mapping, and what mapping without a lock allows |
| `Pipe.dfy`, `PipeProtocol.dfy`, `PipeProgress.dfy` | the scullpipe ring, any number of blocking readers and writers on it, and why they come to rest |
| `Printer.dfy`, `PrinterDriver.dfy`, `PrinterProtocol.dfy`, `PrinterProgress.dfy` | the shortprint output ring, its engine, its writer, work queue, timer and interrupt at once, and why output goes on |
| `Snull.dfy`, `SnullProtocol.dfy` | the two snull interfaces: their handlers, and their packet pools under any interleaving |
| `DdkMem.dfy`, `DdkSession.dfy` | reads with left-over bytes, writes in packets, and cursors of the DDK USB memory driver; the same calls as functions on positions |
| `DdkExtDriver.dfy`, `DdkExt.dfy` | its extension: statistics, timer, work and proc commands, run in turn and interleaved |
| `Access.dfy`, `SingleOpen.dfy`, `OwnerOpen.dfy`, `Counting.dfy` | the access policies: single open, one user, waiting for one user, private devices; the opens of the first three interleaved, with their trims without the mutex |

## What is assumed

- Allocation and user copies may fail at any request. An allocator serves a number of requests (`budget`)
  and then refuses, so every error path of a call is reached by some budget. A faulting copy from user
  space leaves anything in its destination range.
- `quantum` and `qset` are positive, and products of the geometry fit the machine's integers. The page
  size of shortprint is even and at least 4; snull pools have at least one buffer, all allocated.
- A call that holds a mutex is one step where only one device structure is concerned. Reading two
  pointers without the lock is one step too.
- That a task which can make a step makes it some time is not modelled: progress is stated as a bound on the number
  of steps before something happens, together with a step that can always be made until then.
- What a device answers to a message, what others do while a task waits, and when a signal comes are
  parameters, so that every call has one outcome and a run is tied to its calls one by one.

## Where a natural claim fails

Each entry names the member with the exact condition under which the claim holds, for all inputs or runs,
and one with a run or call that fails.

- Opening a scullpipe takes the buffer size from the module parameter even if the buffer is an older one.
  All later reads and writes stay inside the buffer exactly if the parameter is at most its length
  (`Pipe.InsideExactly`, `Pipe.ScullPipe.Open`). Over 4 bytes a size of 8 lets the first write run over the
  end (`Pipe.EightOverFour`), and a size of 5 a write after a read (`Pipe.FiveOverFour`).
- Opening a pipe again empties it and wakes nobody. However the tasks go on from there, no writer is ever left
  asleep beside free space, exactly if none was asleep and un-woken at the open, or a wake-up was owed, or
  there is never room (`PipeProtocol.OpenStrandsWriters`); a run leads to a writer that is left asleep on an
  empty pipe (`PipeProtocol.StrandedWriter`).
- A scull call reads the geometry before it takes the mutex. Whatever calls go on and begin after a trim, every
  access stays inside its pointer array and block, exactly if each write under way has read the new geometry
  and each read under way one that is not larger (`GeometryRace.TrimIsInsideExactly`). A write that has not
  makes a block that the next write runs over (`GeometryRace.StaleWriteOverruns`).
- snull tests whether to restart a queue after it has unlocked the pool, by the next pointer of a buffer that
  may have been sent again and be the last one of the other side's queue (`SnullProtocol.LookMeans`,
  `SnullProtocol.RestartOfEmptyMeans`). A task takes a buffer from an empty pool exactly if such a test restarted the queue over an empty pool and
  no buffer has come back since (`SnullProtocol.UnsafeExactly`). A run with two buffers does
  (`SnullProtocol.LateTestFails`); without such a restart flow control holds (`SnullProtocol.FlowControl`).
- The single-open device can report EBUSY although nobody holds it. Opening succeeds exactly if all
  others are outside, and not merely if none of them holds it (`SingleOpen.OpensWhenAlone`,
  `SingleOpen.BusyWithoutHolder`).
- Left-over bytes of the DDK driver are not dropped when a seek or a write moves the position. A read returns
  the bytes at the position, for every memory, exactly if nothing was left over or it was left over from
  there (`DdkSession.ReadIsTruthfulExactly`; `DdkSession.StaleAfterSeek`, `DdkSession.StaleAfterWrite`).
- A DDK read of left-over bytes does not touch the device. After a call that succeeded the cursors are
  together exactly if it went to the device, or the last call that moved a cursor did not fail and leave it
  elsewhere (`DdkSession.SyncedExactly`, `DdkSession.LeftOverReadApart`).
- A blink count of 2147483648 written to the proc entry is stored as a negative number. The light then
  does not flash but the statistics go down; they are right exactly if no run since the reset had a
  negative count (`DdkExtDriver.BlinksAreFlashes`, `DdkExtDriver.ShortfallMeans`; `DdkExtDriver.BlinkCountWraps`).
- Cleanup of the extension is final, through all that may follow, exactly if there are no writers, or the
  timer is disabled, a cancelled run is still marked as pending and no writer has read the timer as enabled
  (`DdkExt.CleanupIsFinalExactly`). A write after a finished cleanup arms the timer (`DdkExt.CleanupUndone`).
- Mapping a scullp device takes no lock. With another order than 0 it is never mapped, as long as it keeps that
  order, exactly if it is not mapped and no task is between the test of the order and the count
  (`MmapRace.TrimIsSafeExactly`, `MmapRace.MappedWithOrder`).
- Nor does counting a mapping. The counter stays right, however the calls under way go on, exactly if no two
  of them are (`MmapRace.StaysExactExactly`); two mappings counted as one let a trim take the pages
  from under a mapping (`MmapRace.TrimmedWhileMapped`).
- The opens of the access-controlled devices trim without the device mutex. On the single-open device that does
  no harm in any run (`SingleOpen.NeverTrimmedUnder`). On the devices of one user an open frees blocks under
  a copy exactly if it is write-only and admitted and another holder is copying
  (`OwnerOpen.OpenFreesExactly`); whatever others do until it trims, a write-only open that is admitted is safe exactly if
  nobody has the device open and nobody else matches the caller (`OwnerOpen.OpenIsSafeExactly`). Two
  tasks of one user free a block under a copy (`OwnerOpen.FreedUnderCopy`).
- Nobody looks whether a scullp list item was allocated; a call follows a null pointer exactly if one of
  the items it needs is refused (`Scullp.Device.Follow`, `Scullp.Device.Fill`), as does a write behind the
  first item of a new device without memory (`Scullp.FollowsNull`).

Where comments and code differ the model follows the code: the wake test of shortprint is false for an
empty ring although it is meant to find space; a scullp read exactly at the end adds list items although
reads are not to fill holes; snull queues received packets last in, first out, as a comment there notes.

## Model

| member | source | states |
|---|---|---|
| Geometry.LocateIsFlat | scull/main.c:303-306 | item and slot are the number of the quantum a position lies in, the offset is the position inside it, and the parts make up the position |
| Geometry.FlattenIsLocated | scull/main.c:343-347 | every address inside the geometry belongs to exactly one position, so addressing is injective |
| Geometry.SameBlock | scull/main.c:291-306 | two positions share a block exactly if they are in the same quantum |
| Geometry.LocateStep | scull/main.c:314-318 | up to the end of the quantum, moving on only moves the offset |
| Geometry.ItemMonotone | scull/main.c:303-309 | earlier positions are in earlier or equal items, so below the size no list item is missing |
| SparseFile.ReadCount | scull/main.c:298-316 | a read gets no more than asked for, than the quantum holds, or than the file has, and something only where a cell exists |
| SparseFile.ChunkEnds | scull/main.c:314-316 | a call moves all it is asked to or ends exactly where the next quantum begins, and moves something |
| SparseFile.ReadEnds | scull/main.c:298-316 | a read below the size where there is a cell stops short only at the end of the file or of the quantum |
| SparseFile.StoreAgrees | scull/main.c:364-377 | a store keeps the device equal to a flat memory of all bytes written |
| SparseFile.ReadAgrees | scull/main.c:298-323 | a read returns the last byte written at each offset, nothing past the end, and at least one byte where one was written |
| SparseFile.FaultAgrees | scull/main.c:368-371 | a faulting write spoils only its own range of that flat memory and not the size |
| Layout.AddItemFlat | scull/main.c:262-275 | a new list item changes nothing in the flat file |
| Layout.AddPointersFlat | scull/main.c:353-358 | a zeroed pointer array changes nothing in the flat file |
| Layout.AddBlock | scull/main.c:359-363 | hanging a block in a free slot keeps geometry, single ownership and the ledger of allocations |
| Layout.AddBlockFlat | scull/main.c:359-363 | a new block adds cells of its own quantum only and keeps every other |
| Layout.RewriteFlat | scull/main.c:364-368 | overwriting part of one block stores exactly those bytes in the flat file and touches nothing else |
| Layout.ReadFlat | scull/main.c:311-318 | the cells behind a position are the bytes of its block |
| Scull.Params.Ioctl | scull/main.c:388-510 | command by command, without the capability or with it: what becomes of each parameter and that the other stays, which error comes first, what is returned and stored; no unprivileged command changes a parameter but to its default |
| Scull.Device.constructor | scull/main.c:221-224 | a device starts empty, with nothing allocated and the module-wide geometry |
| Scull.Device.Extend | scull/main.c:261-275 | one item is appended and charged, and the flat file stays |
| Scull.Device.Follow | scull/main.c:256-280 | succeeds exactly if the missing items are granted; adds as many empty items at the end as it is granted, and nothing else; the flat file stays |
| Scull.Device.Read | scull/main.c:286-328 | returns what the flat file holds, all that is asked for unless the file, the quantum or the hole ends it; allocates nothing; faults exactly if there was something to copy; moves the position by the count |
| Scull.Device.CellsOfBlock | scull/main.c:311-318 | a missing block is a hole, and a present one holds the cells of its quantum |
| Scull.Device.AllocatePointers | scull/main.c:353-358 | the array has `qset` null slots, is charged once, and the flat file stays |
| Scull.Device.AllocateBlock | scull/main.c:359-363 | a fresh block is owned by one slot and no other cell changes |
| Scull.Device.Supply | scull/main.c:353-363 | the array and the block that are missing, as far as they are granted, in this order and nowhere else |
| Scull.Device.CopyIn | scull/main.c:368 | the bytes are stored at the position and the size is not touched |
| Scull.Device.Prepare | scull/main.c:350-363 | succeeds exactly if the missing allocations are granted; makes just so many, all of them reachable; on refusal the flat file is as it was |
| Scull.Device.Write | scull/main.c:330-382 | ENOMEM exactly if an allocation it needs is refused, EFAULT exactly if the copy fails; otherwise stores the whole buffer or goes on to exactly the end of the quantum, sets the size to the larger end, and every other cell stays; makes exactly the allocations that were missing and granted |
| Scull.Device.Trim | scull/main.c:205-226 | frees every item, array and block, each while it is still allocated, so once; ends empty and only then adopts the new geometry |
| Scull.Device.Open | scull/main.c:232-247 | opening for writing only empties the device, any other open does nothing |
| ItemList.List.Append | scull/main.c:262-275 | a new cleared node is linked behind the last one |
| ItemList.List.Follow | scull/main.c:256-280 | following next pointers reaches the n-th node, or null exactly if a missing one is refused; the nodes hold what the device's sequence of items becomes |
| ItemList.List.Trim | scull/main.c:211-224 | what is done to the nodes is, in this order, the reading and then the freeing of each, from the first to the last; the list is empty |
| ItemList.ReadBeforeFreed | scull/main.c:218-219 | in that order each node is read once, right before it is freed, and never after |
| GeometryRace.StepKeepsHarmless | scull/main.c:335-373 | while writes under way have the device's geometry and reads one that is not larger, every access is inside, and no array or block is made to another measure |
| GeometryRace.RunIsInside | scull/main.c:291-373 | as long as no trim changes the geometry under a call that has read it, every access of every interleaving is inside its array and block |
| GeometryRace.TrimIsInsideExactly | scull/main.c:221-224 | after a trim every access stays inside, whatever calls go on and begin, exactly if each write under way has read the new geometry and each read under way one that is not larger |
| GeometryRace.StaleWriteOverruns | scull/main.c:335-368 | a run in which a late write makes a block of the old quantum and the next one copies behind its end |
| ScullRuns.HoldMore | scull/main.c:364-377 | bytes stored behind those held extend what is held |
| ScullRuns.WriteMore | scull/main.c:330-382 | each successful call accepts at least one byte and keeps all that were accepted |
| ScullRuns.WriteAll | scull/main.c:330-382 | writing call by call stores the whole buffer or stops with memory short, and the accepted prefix is held; it takes at most one call for each quantum boundary reached, and one more |
| ScullRuns.ReadHeld | scull/main.c:286-328 | a read inside what is held returns the next bytes of it, at least one |
| ScullRuns.ReadMore | scull/main.c:286-328 | each call returns the next bytes held, at least one |
| ScullRuns.ReadAll | scull/main.c:286-328 | reading call by call ends with exactly the bytes held, in at most one call for each quantum boundary reached, and one more |
| ScullRuns.RoundTrip | scull/main.c:286-382 | a buffer of any length written from any position is then held by the device and read back unchanged |
| ScullRuns.Perform | scull/main.c:232-510 | any call answers as the moment it is made in demands: the event, the new list, the new file and the new geometry; and the device stays equal to a flat memory |
| ScullRuns.Run | scull/main.c:205-510 | in any sequence of calls each answers as its moment demands, from the first state to the last; every read is faithful to the flat memory of the bytes written, and nothing leaks |
| Scullp.Device.Nopage | scullp/mmap.c:60-96 | the walk that takes `qset` pages off per item finds the page that division finds; SIGBUS exactly at a hole below the size, nothing behind the size |
| Scullp.Device.EndOfWalk | scullp/mmap.c:77-82 | the walk ends at the item and slot of the division, or has run off the list |
| Scullp.Device.VmaOpen | scullp/mmap.c:33-38 | one more mapping, and the device stays sound |
| Scullp.Device.VmaClose | scullp/mmap.c:40-45 | one mapping less |
| Scullp.Device.Mmap | scullp/mmap.c:107-120 | refused exactly if blocks are not single pages, and counted otherwise |
| Scullp.Device.Follow | scullp/main.c:150-161 | the list is extended by the missing items as far as they are granted; the null pointer is followed exactly if one is refused |
| Scullp.Device.AllocatePage | scullp/main.c:243-249 | the new page is fresh, zeroed and the page of that position; all others stay |
| Scullp.Device.Supply | scullp/main.c:236-249 | the array and the page that are missing, as far as they are granted, in this order; no page that was there moves |
| Scullp.Device.Fill | scullp/main.c:234-249 | a null pointer followed, no memory, or a page for the position, zeroed if it is new: exactly by how many of the missing allocations are granted; no page that was there moves |
| Scullp.FollowsNull | scullp/main.c:150-161 | on a new device a write behind the first item, with no memory left, follows a null pointer |
| Scullp.Device.PagesDiffer | scullp/main.c:243-246 | positions in different pages of the device never share a page of memory |
| Scullp.Device.Write | scullp/main.c:215-267 | which error exactly, by the allocations granted and the copy; stores the accepted prefix in the page, keeps its other bytes or zeros and the bytes of all other pages, extends the size, and moves no page |
| Scullp.Device.Read | scullp/main.c:167-211 | returns the bytes of the page up to its end and the size, none at a hole; EFAULT exactly if there was something to copy; adds the missing list items only at the end, where a refused one is a null pointer followed |
| Scullp.Device.Trim | scullp/main.c:491-519 | EBUSY exactly if something is mapped, and then nothing changes; otherwise everything but the first item is freed once |
| Scullp.PerformMapped | scullp/main.c:491-498 | on a mapped device each call answers as its moment demands, a touch with exactly the page there; no call moves or frees a page or changes the geometry |
| Scullp.RunMapped | scullp/mmap.c:28-96 | as long as a mapping exists each call answers as its moment demands, and every page that a fault handed out stays in place |
| MmapRace.RunCountsExactly | scullp/mmap.c:33-45 | in every run the counter is the number of mappings all the way exactly if no store overwrites a change that came after its load |
| MmapRace.StaysExactExactly | scullp/mmap.c:33-45 | from a right counter it stays right, however the calls under way go on, exactly if no two of them are |
| MmapRace.RunIsSafe | scullp/mmap.c:111-118 | without such an overwriting store, and without a trim between a test and its count, the counter is right and only devices of order 0 are mapped |
| MmapRace.TrimIsSafeExactly | scullp/mmap.c:111-118 | with another order than 0 the device stays safe while it keeps it, however tasks go on, exactly if it is not mapped and no task is about to map it |
| MmapRace.MappedWithOrder | scullp/main.c:497-516 | a run that maps a device of order 1, with a right counter |
| MmapRace.TrimmedWhileMapped | scullp/mmap.c:33-45 | a run in which two mappings are counted as one, one is closed, and a trim goes ahead under the other |
| Pipe.SpaceIsRest | scull/pipe.c:188-193 | free space is the size less one less the queue, and equal pointers mean an empty queue |
| Pipe.ReadTakes | scull/pipe.c:142-152 | a read takes bytes off the front of the queue, at least one if asked for one |
| Pipe.CountsReach | scull/pipe.c:142-145 | a read that stops short has emptied the pipe or come to the end of the buffer, a write has filled it or come to its end |
| Pipe.WriteAppends | scull/pipe.c:210-222 | a write appends a prefix of its data, at least one byte, and never fills the last slot |
| Pipe.FaultKeepsQueue | scull/pipe.c:216-219 | a faulting copy leaves the queue alone |
| Pipe.InsideExactly | scull/pipe.c:79-81 | reads and writes on an empty pipe of some size stay inside some length of memory, in every sequence, exactly if the size is at most the length |
| Pipe.TooLargeOverruns | scull/pipe.c:210-222 | filling the memory, reading a byte and writing one more runs over the end of any memory shorter than the size |
| Pipe.EightOverFour | scull/pipe.c:210-216 | a size of 8 over 4 bytes overruns in the first write |
| Pipe.FiveOverFour | scull/pipe.c:210-216 | a size of 5 over 4 bytes overruns in no first write, but after a read |
| Pipe.ScullPipe.Open | scull/pipe.c:62-91 | allocates once, empties the pipe, counts the opener; every later sequence of reads and writes stays inside the buffer exactly if it is new or at least as long as the parameter |
| Pipe.ScullPipe.Release | scull/pipe.c:95-112 | the buffer goes with the last opener |
| Pipe.ScullPipe.Read | scull/pipe.c:119-159 | EAGAIN exactly if empty, EFAULT exactly if the copy fails; what is returned followed by the new queue is the old queue; it stops short only at an empty pipe or the end of the buffer |
| Pipe.ScullPipe.Write | scull/pipe.c:195-233 | EAGAIN exactly if full; the new queue is the old one and the accepted prefix, or the old one on a fault; it stops short only at a full pipe or the end of the buffer |
| PipeProtocol.StepKeepsFifo | scull/pipe.c:141-152 | no step loses, repeats or reorders a byte |
| PipeProtocol.ReadStepKeepsCovered | scull/pipe.c:127-156 | no step of a reader leaves a sleeper without a reason to sleep or somebody who will wake it |
| PipeProtocol.WriteStepKeepsCovered | scull/pipe.c:163-226 | the same for the steps of a writer |
| PipeProtocol.RunKeepsInv | scull/pipe.c:119-233 | in every interleaving the mutex is exclusive, delivered and queued bytes are the accepted ones in order, and no wake-up is lost on either side |
| PipeProtocol.NoDeadlock | scull/pipe.c:163-185 | with room for a byte a reader and a writer are never both asleep with no wake-up owed |
| PipeProtocol.AtRest | scull/pipe.c:127-183 | when all tasks rest, readers sleep only on an empty pipe and writers only on a full one |
| PipeProtocol.OpenStrandsWriters | scull/pipe.c:79-81 | after opening the pipe again, in every continuation, all tasks at rest means writers asleep only on a full pipe, exactly if no writer slept un-woken at the open, or a wake-up was owed, or there is never room |
| PipeProtocol.SleepIsARun | scull/pipe.c:163-183 | a run in which a writer fills the pipe and falls asleep |
| PipeProtocol.StrandedWriter | scull/pipe.c:79-81 | an open after that run leaves the writer asleep on an empty pipe |
| PipeProgress.OwnStepComesNearer | scull/pipe.c:119-233 | each step of a call that does not end early brings its task nearer to rest |
| PipeProgress.StepServes | scull/pipe.c:141-157 | bytes are moved once for each call, and each move is followed by one wake-up |
| PipeProgress.CallsComeToRest | scull/pipe.c:119-233 | from any reachable state, without new calls, signals and faults, each task moves bytes at most once and makes at most six steps and twelve for every task |
| PipeProgress.NeverStuck | scull/pipe.c:119-233 | in every reachable state in which not all tasks rest, one of them can make such a step |
| Printer.SpaceIsFree | shortprint/shortprint.c:120-127 | the space found is contiguous and free, and is nothing exactly if all slots but one are used |
| Printer.SpaceIsAll | shortprint/shortprint.c:120-127 | the space found is all that is free, or reaches to the end of the page |
| Printer.SpaceIsUsed | shortprint/shortprint.c:120-135 | filling it leaves none, or brings the head back to the start of the page |
| Printer.StrobeTakes | shortprint/shortprint.c:240-241 | printing takes the oldest byte and never shrinks the space a writer has seen |
| Printer.StoreIsUnseen | shortprint/shortprint.c:299 | a byte stored in the space changes neither what waits nor the space |
| Printer.AdvancePublishes | shortprint/shortprint.c:129-135 | moving the head appends what was stored behind it |
| Printer.WakeTestMeans | shortprint/shortprint.c:347 | the wake test holds exactly if something waits but less than half a page |
| PrinterProtocol.WriterKeepsInv | shortprint/shortprint.c:287-312 | the writer's steps keep order, copy only into free space, and leave no bytes unattended |
| PrinterProtocol.WorkKeepsInv | shortprint/shortprint.c:326-350 | the work's steps keep the writer's space free and its sleep justified |
| PrinterProtocol.TimerKeepsInv | shortprint/shortprint.c:364-401 | timer and interrupt keep active output driven |
| PrinterProtocol.RunKeepsInv | shortprint/shortprint.c:272-401 | in every interleaving printed and waiting bytes are the accepted ones; waiting bytes with inactive output occur only before the writer's check; active output has a timer, a callback or work under way |
| PrinterProtocol.SleeperIsServed | shortprint/shortprint.c:290-349 | a writer asleep un-woken has at least half a page before it, and output is active and driven |
| PrinterProtocol.WokenInTime | shortprint/shortprint.c:346-349 | during one sleep fewer than half a page of bytes is printed |
| PrinterProtocol.CallAccepts | shortprint/shortprint.c:287-318 | at any time a call has accepted exactly the prefix of its data that it counts |
| PrinterProgress.StepComesNearer | shortprint/shortprint.c:326-401 | until the next byte is printed output stays active, and every step of the work, the timer and the interrupt comes nearer to it, but for looks that find the printer busy |
| PrinterProgress.OutputGoesOn | shortprint/shortprint.c:326-401 | from any reachable state with output active and bytes waiting, a byte is printed before 27 steps of the work and the timer, and 4 more for each interrupt and 2 for each look that finds the printer busy |
| PrinterProgress.OutputNeverStalls | shortprint/shortprint.c:371-401 | while output is active such a step can always be made |
| PrinterProgress.WorkPrints | shortprint/shortprint.c:326-343 | work on its way prints within ten of its own steps, however others fall in between |
| PrinterProgress.RequestPrints | shortprint/shortprint.c:254-364 | an interrupt taken while output is active, and a writer that finds it inactive, have the next byte printed without the timer |
| PrinterProgress.CallAcceptsItsData | shortprint/shortprint.c:272-318 | from the beginning of a call to its end exactly its data is accepted, behind what was before; a signal or a fault ends it with a prefix accepted |
| PrinterProgress.EndsWhenAllIsAccepted | shortprint/shortprint.c:287-317 | a call that no signal and no fault cuts short ends only when all its data is accepted |
| PrinterProgress.SleepsOnlyWhenFull | shortprint/shortprint.c:289-294 | a writer lies down only on a full ring |
| PrinterProgress.CopiesAllItCan | shortprint/shortprint.c:289-299 | it copies all that is left of its data, or fills the ring, or goes on to the end of the page |
| PrinterProgress.WriterGoesOn | shortprint/shortprint.c:287-312 | while there is space, an awake writer has bytes accepted within a page of its own steps, and can always make one |
| PrinterDriver.Driver.DoWrite | shortprint/shortprint.c:232-248 | the byte at the tail is printed and the timer armed |
| PrinterDriver.Driver.StartOutput | shortprint/shortprint.c:254-266 | output that is inactive becomes active with timer and work; active output is left alone |
| PrinterDriver.Driver.DoWork | shortprint/shortprint.c:326-350 | prints one byte or stops when there is none, loses nothing, and wakes exactly below half a page |
| PrinterDriver.Driver.Sleep | shortprint/shortprint.c:290-294 | a sleeper on a full ring is woken after exactly half a page is printed, unless a signal comes before |
| PrinterDriver.Driver.WaitForSpace | shortprint/shortprint.c:289-294 | the wait ends with space exactly if there was some or half a page is printed before a signal; nothing accepted is lost |
| PrinterDriver.Driver.PutChunk | shortprint/shortprint.c:299-311 | the chunk is appended to what was accepted, and output goes on |
| PrinterDriver.Driver.SpoilBehindHead | shortprint/shortprint.c:299-302 | a copy that faults changes nothing that is to be printed |
| PrinterDriver.Driver.Write | shortprint/shortprint.c:272-318 | a write is accepted in order up to where a copy faults or a signal ends a wait on a full ring, and whole without either; a fault comes only at the start of the data, at the start of the page or after a wait, and then the caller is not told how much |
| SnullProtocol.StepConserves | snull/snull.c:132-186 | every step takes a buffer from one place and puts it in another |
| SnullProtocol.StepKeepsSorted | snull/snull.c:150-186 | pools hold a device's own buffers and receive queues the other's |
| SnullProtocol.StepKeepsChained | snull/snull.c:156-170 | the next pointers that pools and queues share lead through each list to its end, whatever lists a buffer was on before |
| SnullProtocol.StepKeepsRestartOwed | snull/snull.c:155-160 | a queue stays stopped over a pool with buffers only while the tests of the last of them or a restart are owed |
| SnullProtocol.RunKeepsInv | snull/snull.c:98-186 | in every interleaving each buffer is in exactly one place: its pool, the peer's queue, or one task's hands; no queue stays stopped over buffers without a test or restart owed |
| SnullProtocol.OpenMeans | snull/snull.c:141-160 | in every run a queue runs over an empty pool exactly if it was restarted over it and no buffer came back since |
| SnullProtocol.UnsafeExactly | snull/snull.c:139-140 | a task follows a null pointer out of an empty pool exactly in that case |
| SnullProtocol.FlowControl | snull/snull.c:141-160 | without such a restart a queue is stopped whenever its pool is empty, every task finds a buffer, and with no test or restart under way stopped means empty |
| SnullProtocol.LookMeans | snull/snull.c:159 | the next pointer of a buffer that was put back is null exactly if it is the last of its pool, or has been taken again and is the last of the other queue, or is in hand with a null pointer |
| SnullProtocol.RestartOfEmptyMeans | snull/snull.c:159-160 | behind every restart of an empty pool is an earlier look at a buffer that was then the last of the pool, emptied since, or of the other queue, or in hand |
| SnullProtocol.LateTestFails | snull/snull.c:155-160 | a run with two buffers that restarts an empty pool and then takes from it |
| Snull.Padded | snull/snull.c:517-522 | a frame goes out whole and, if short, filled with zeros to exactly the minimum |
| Snull.EnqueueBalances | snull/snull.c:163-172 | queuing a frame keeps the books of arrived, delivered, dropped and queued frames |
| Snull.ReceiveBalances | snull/snull.c:253-281 | receiving or dropping the first frame keeps them |
| Snull.BalancedCounts | snull/snull.c:266-277 | balanced books mean: arrived frames are received, dropped or queued ones |
| Snull.SideOfEnqueued | snull/snull.c:163-172 | queuing a buffer puts its frame in front |
| Snull.SideOfReceived | snull/snull.c:262-277 | receiving takes the first frame and delivers or drops it |
| Snull.DrainTakes | snull/snull.c:294-316 | receiving takes frames off the front, hands up those whose own allocation is granted, drops the others, and stops exactly with the quota or the queue |
| Snull.Device.constructor | snull/snull.c:98-115 | a pool of distinct buffers of this device, nothing queued, queue running |
| Snull.Device.GetTxBuffer | snull/snull.c:132-147 | takes the first buffer and stops the queue when it was the last |
| Snull.Device.ReleaseBuffer | snull/snull.c:150-161 | puts a buffer back and restarts the queue exactly if it has no next buffer, for a task that nobody interrupts |
| Snull.Device.EnqueueBuf | snull/snull.c:163-172 | the frame arrives at the head of the queue |
| Snull.Device.DequeueBuf | snull/snull.c:174-186 | takes the head of the queue, or nothing from an empty one |
| Snull.Device.Rx | snull/snull.c:253-281 | a frame is delivered and counted, or dropped and counted |
| Snull.RegularInterrupt | snull/snull.c:333-376 | receives one frame if interrupted for it, returns its buffer to the owner, counts a finished transmission |
| Snull.NapiInterrupt | snull/snull.c:381-418 | turns receive interrupts off and asks for a poll, counts a finished transmission |
| Snull.HwTx | snull/snull.c:425-504 | too short a frame changes nothing; any other arrives once at the other side and is received, dropped or queued there as the reference says, and the sender's counters follow |
| Snull.Tx | snull/snull.c:509-532 | every frame is sent, filled up to the minimum; without NAPI its buffer is back when the call ends |
| Snull.Drain | snull/snull.c:294-316 | receives exactly the frames the reference does, in its order; ends even if every allocation fails, and delivers the quota unless the queue runs out |
| Snull.Poll | snull/snull.c:287-327 | the side is what the reference makes of it; budget and quota go down by exactly the packets delivered, never by dropped ones; polling goes on exactly if frames are left |
| Snull.SentIsAccountedFor | snull/snull.c:253-327 | between handlers the sender's transmitted packets are the receiver's received, dropped and queued ones |
| Snull.HandleTransmit | snull/snull.c:509-532 | a frame for a stopped queue goes nowhere, any other where the reference says |
| Snull.HandlePoll | snull/snull.c:287-327 | a poll happens to devices that asked for it, and does what the reference says |
| Snull.Run | snull/snull.c:333-532 | any transmissions and polls lead to exactly the frames arrived, delivered, dropped and queued of the reference, and both directions stay accounted for |
| DdkSession.SuccessSyncs | misc-modules/ddk_mem.c:151-315 | a call that succeeds on the device leaves both cursors together |
| DdkSession.OpenRewinds | misc-modules/ddk_mem.c:129-136 | wherever the cursors were, an open succeeds exactly if both messages go through and then leaves both at 0; a lost one leaves its own cursor and the next alone |
| DdkSession.FullPackets | misc-modules/ddk_mem.c:163-183 | where the device takes all it is given, sending takes exactly as many transfers as packets that the data fills |
| DdkSession.SendGoesUntil | misc-modules/ddk_mem.c:163-183 | sending ends at the first fault or lost message, and fails exactly if that is before the end |
| DdkSession.WriteGoesUntil | misc-modules/ddk_mem.c:151-199 | a write leaves the write cursor where its sending ended, and moves the read cursor there exactly if all was sent and that message got through |
| DdkSession.CursorsAfter | misc-modules/ddk_mem.c:159-313 | which calls move a cursor, and exactly by which lost message or fault one leaves it apart from the other |
| DdkSession.SyncedUntilParted | misc-modules/ddk_mem.c:129-315 | in any run after a successful open of any cursors they are together exactly if the last call that moved one did not part them |
| DdkSession.SyncedExactly | misc-modules/ddk_mem.c:129-315 | after a successful call of such a run they are together exactly if it went to the device, or that holds before it |
| DdkSession.LeftOverReadApart | misc-modules/ddk_mem.c:210-214 | a run whose successful read of left-over bytes leaves the cursors apart |
| DdkSession.CallsKeepFresh | misc-modules/ddk_mem.c:184 | reads keep the left-over bytes at the position; a write or seek does exactly if it has none or stays |
| DdkSession.ReadIsTruthfulExactly | misc-modules/ddk_mem.c:210-264 | a read returns the bytes at the position, for every memory, exactly if nothing was left over or it is from there |
| DdkSession.StaleAfterSeek | misc-modules/ddk_mem.c:305-314 | open, read one byte of two, seek anywhere: the next read returns the second byte |
| DdkSession.StaleAfterWrite | misc-modules/ddk_mem.c:184-198 | the same after a write |
| DdkSession.ReadsAreTheMemory | misc-modules/ddk_mem.c:200-267 | reads on end, for any counts, packet sizes and failures, return the memory from the first position to the last |
| DdkSession.SendMoves | misc-modules/ddk_mem.c:164-183 | sending moves the write cursor by what was sent, all of it unless a copy or transfer fails, and counts a failed transfer once |
| DdkMem.File.Open | misc-modules/ddk_mem.c:116-126 | a file starts at position 0 with nothing left over, and the cursors where they were |
| DdkMem.File.Rewind | misc-modules/ddk_mem.c:129-136 | sets both cursors to 0, wherever they were, or stops at the first message that is lost |
| DdkMem.File.Fetch | misc-modules/ddk_mem.c:218-236 | is the session's fetch, and the buffer then holds the memory at the file position |
| DdkMem.File.ShiftDown | misc-modules/ddk_mem.c:251-254 | the shift in place moves the rest to the front of the buffer |
| DdkMem.File.Deliver | misc-modules/ddk_mem.c:238-266 | returns the first bytes, as many as asked for or all, and keeps exactly the others, or all of them on a fault |
| DdkMem.File.Read | misc-modules/ddk_mem.c:200-267 | is the session's read, and returns the bytes of the memory that it names; the left-over bytes are always those of the memory where they came from |
| DdkMem.File.ReadMany | misc-modules/ddk_mem.c:200-267 | each result is that of its call in the run of sessions; put together they are the memory from the first position to the last |
| DdkMem.File.SendAll | misc-modules/ddk_mem.c:163-183 | is the session's sending, and the device has got exactly the bytes it counts, in order |
| DdkMem.File.Write | misc-modules/ddk_mem.c:151-199 | is the session's write, counters included, and the device has got a prefix of the buffer, all of it on success |
| DdkMem.File.MoveTo | misc-modules/ddk_mem.c:305-314 | sets both cursors and then the position, or stops at the first message that is lost |
| DdkMem.File.Seek | misc-modules/ddk_mem.c:268-315 | the position becomes the offset from the start, the device's read cursor or the end, kept inside the memory, and both cursors with it, or stays; with no message lost it fails exactly for an unknown base |
| DdkExtDriver.Ext.constructor | misc-modules/ddk_usb_ext.c:273-304 | the driver starts with the defaults, nothing armed or queued |
| DdkExtDriver.Ext.OnWriteSuccess | misc-modules/ddk_usb_ext.c:232-257 | counts the write; is two steps of the protocol; arms the timer if that is enabled and queues the work otherwise |
| DdkExtDriver.Ext.OnWriteFail | misc-modules/ddk_usb_ext.c:260-266 | counts the failure and does nothing else |
| DdkExtDriver.Ext.TimerCallback | misc-modules/ddk_usb_ext.c:74-96 | is three steps of the protocol; afterwards work is queued and the timer armed again |
| DdkExtDriver.Ext.BlinkWorker | misc-modules/ddk_usb_ext.c:37-68 | the light goes on and off as often as the count says and ends off; statistics grow by the count; is a run of the protocol's steps |
| DdkExtDriver.FlashesAlternate | misc-modules/ddk_usb_ext.c:54-59 | the light is on and off by turns, as often as counted, and ends off |
| DdkExtDriver.Ext.ProcWrite | misc-modules/ddk_usb_ext.c:157-217 | which commands are refused and that these change nothing; for each other one the field that gets the number given, and that all others stay; the blink count becomes negative exactly if a positive number wraps |
| DdkExtDriver.Ext.Cleanup | misc-modules/ddk_usb_ext.c:307-322 | is the three stages of the protocol and ends with nothing armed or queued |
| DdkExtDriver.BlinksAreFlashes | misc-modules/ddk_usb_ext.c:61-64 | the blink statistics are the flashes since the reset less the shortfall of negative counts, so right exactly without one |
| DdkExtDriver.ShortfallMeans | misc-modules/ddk_usb_ext.c:192-195 | there is a shortfall exactly if a run since the reset had a negative count |
| DdkExtDriver.TameHasNoShortfall | misc-modules/ddk_usb_ext.c:192-195 | without a number that wraps there is no shortfall |
| DdkExtDriver.BlinkCountWraps | misc-modules/ddk_usb_ext.c:192-195 | a number that wraps, a write and a run: the light stays dark and the statistics are negative |
| DdkExtDriver.FirstToWrap | misc-modules/ddk_usb_ext.c:194 | 2147483648 is the first number that wraps to a negative one |
| DdkExtDriver.Run | misc-modules/ddk_usb_ext.c:37-266 | each call makes exactly the event of the reference and leads to its settings; the statistics are those of the events since the last reset, and the light is off and flashed as often as the runs say |
| DdkExt.StepKeepsTracked | misc-modules/ddk_usb_ext.c:44-85 | work is pending exactly if it is queued or its worker has not taken its snapshot; each accepted request makes one run |
| DdkExt.RunKeepsTracked | misc-modules/ddk_usb_ext.c:37-96 | the same in every state that any interleaving reaches |
| DdkExt.DoKeepsTracked | misc-modules/ddk_usb_ext.c:37-96 | handlers, being sequences of steps, keep what the protocol keeps |
| DdkExt.RunBlinksItsCount | misc-modules/ddk_usb_ext.c:54-59 | a run ends after as many blinks as the count it took at its start |
| DdkExt.StoredNumber | misc-modules/ddk_usb_ext.c:192-200 | a number is stored unchanged if it fits 32 bits, and otherwise as the one in range that equals it modulo 2 to the 32 |
| DdkExt.FlashesAsCommanded | misc-modules/ddk_usb_ext.c:44-62 | after a blink command with a positive number that fits, every run of the work that takes its count before the next one flashes exactly so often |
| DdkExt.StepSpendsFirings | misc-modules/ddk_usb_ext.c:180-185 | while the timer is disabled no step adds to the firings still to come |
| DdkExt.FiringsAfterCommand | misc-modules/ddk_usb_ext.c:180-185 | after the timer is disabled it fires at most once for each caller that had already read it as enabled |
| DdkExt.CleanupIsFinal | misc-modules/ddk_usb_ext.c:307-322 | without writers, cleanup ends with no timer, callback, queued or running work, and it stays so |
| DdkExt.OnlyWritersDisturb | misc-modules/ddk_usb_ext.c:245-256 | exactly which steps make something run after cleanup |
| DdkExt.CleanupIsFinalExactly | misc-modules/ddk_usb_ext.c:307-322 | a finished cleanup stays final through every continuation exactly if there are no writers, or the timer is disabled, a run is marked pending and no writer saw the timer enabled |
| DdkExt.CleanupUndone | misc-modules/ddk_usb_ext.c:232-247 | a run in which a write arms the timer after a cleanup that found nobody writing |
| SingleOpen.RunKeepsInv | scull/access.c:55-75 | in every interleaving the counter starts at one and is one less for each task that took it down, at most one holds the device, and nobody copies to a block that was freed |
| SingleOpen.OneHolder | scull/access.c:59-62 | two tasks never have the device open at once |
| SingleOpen.OpensWhenAlone | scull/access.c:59-62 | an open succeeds exactly if every other task is outside, even one that failed and has not undone that |
| SingleOpen.TrimsAlone | scull/access.c:59-66 | whoever trims the device is its only holder |
| SingleOpen.NeverTrimmedUnder | scull/access.c:55-69 | in every run, although a trim takes no mutex, nobody else has the device open when it comes, so no copy loses its block |
| SingleOpen.OpensEmptied | scull/access.c:55-69 | whoever opens for writing only finds the device trimmed once more when he copies, by him alone, and not again until he closes it |
| SingleOpen.LeavesInTheEnd | scull/access.c:55-75 | each step that begins nothing new brings its task nearer to being outside, and one can be made until then |
| SingleOpen.TurnsAreARun | scull/access.c:55-75 | a run in which two tasks take turns |
| SingleOpen.BusyWithoutHolder | scull/access.c:59-62 | a run that ends with nobody holding the device and the next open refused |
| OwnerOpen.StepKeepsOneUser | scull/access.c:165-189 | everybody who has the device open matches its owner, who changes only when nobody has |
| OwnerOpen.StepKeepsCovered | scull/access.c:178-210 | no step leaves a sleeper that could open the device and that nobody will wake |
| OwnerOpen.RunKeepsInv | scull/access.c:165-210 | both in every interleaving, and the count is the number of openings |
| OwnerOpen.HoldersAreTheOwner | scull/access.c:165-189 | in every run a holder without the capability has the owner's uid or euid |
| OwnerOpen.TestsAdmitExactly | scull/access.c:108-118 | a test of the device lets a task on exactly if nobody holds it, or its uid or euid is the owner's, or it has the capability; the first to open it gives it its uid |
| OwnerOpen.AdmittedGetIn | scull/access.c:178-189 | a task that may open the device is never left waiting: it has it open after at most three steps of its own, and can make one, unless it sleeps and a wake-up is owed |
| OwnerOpen.LeavesInTheEnd | scull/access.c:198-210 | a task that has the device open can always make a step towards being outside, and comes nearer with each |
| OwnerOpen.OwnerIsFixed | scull/access.c:186-188 | while somebody has the device open its owner stays |
| OwnerOpen.ClosedMeansAwake | scull/access.c:207-208 | with the device closed and no wake-up owed, nobody is left asleep |
| OwnerOpen.OpenFreesExactly | scull/access.c:103-128 | in every run an open frees blocks under a copy exactly if it is write-only and admitted and another holder is copying |
| OwnerOpen.TrimsAfterOpen | scull/access.c:190-192 | whoever is about to trim was admitted by a write-only open of its own |
| OwnerOpen.TrimsSafelyExactly | scull/access.c:174-196 | from its admission to its trim, whatever others do, nobody copies exactly if nobody else has the device open or may open it |
| OwnerOpen.OpenIsSafeExactly | scull/access.c:174-196 | in every run a write-only open that is admitted is safe in that sense exactly if nobody has the device open and nobody else matches the caller |
| OwnerOpen.FreedUnderCopy | scull/access.c:124-125 | a run of two tasks of one user that both open: the second frees a block that the first copies to |
| Access.SingleOpenDevice.Open | scull/access.c:55-69 | succeeds exactly if the device is free; a refused open does not empty it |
| Access.SingleOpenDevice.Release | scull/access.c:71-75 | the device is free again |
| Access.OwnedDevice.Open | scull/access.c:103-128 | EBUSY exactly if somebody holds it, its owner is neither the caller's uid nor euid, and he lacks the capability; the first user's uid becomes the owner, and every holder is the owner, has his identity, or has the capability |
| Access.OwnedDevice.Release | scull/access.c:198-210 | one opening less, and a wake-up exactly for the last |
| Access.OwnedDevice.Others | scull/access.c:165-210 | the opens and closes of others keep the owner's rule and lead where it says |
| Access.OthersFollowTheRule | scull/access.c:165-210 | an act of another lets him in exactly if nobody holds the device, or he is the owner, has his identity or the capability; closing removes just that opening |
| Access.OwnedDevice.OpenWaiting | scull/access.c:174-196 | whoever is the owner, has his identity or the capability, enters at once; whatever others do at each wait, anybody else does so the first time the device is free or his; EAGAIN and the signal exactly in the other cases |
| Access.PrivateDevices.LookFor | scull/access.c:249-273 | the same key always finds the same device; a new one is empty and put first; ENOMEM exactly if it is missing and refused |
| Access.PrivateDevices.WriteTo | scull/access.c:234-239 | what is written to one private device leaves the contents of all others alone |

## Left out

- Lists in the devices: scull, scullp and snull hold them as sequences; that the linked list of scull does the same is proved beside it, without its pointer arrays. snull's next pointers are in the protocol.
- An allocator that refuses a request and serves a later one of the same call: every call ends at its first refusal.
- Interrupted waits for a mutex, except in the pipe protocol, where a task may give up at every lock.
- Scull.Device.Write: does not model that `quantum` and `qset` are read before the mutex is taken, nor does the read, because one task runs them; the race module has the gap, without refused allocations.
- Integer overflow of sizes and positions, and a geometry of zero or less, with which the code divides by zero; the 32-bit blink count and the wrapping statistics are modelled.
- Scull.Params.Ioctl: does not model the two commands that set and ask for the pipe's buffer size, because the size is a parameter of every open of the pipe.
- Seeking on scull devices, which is a sum with one error case.
- Scullp.Device.Write: does not model allocation orders above 0, nor do the other operations, because later list items keep order 0 whatever the device has; ioctl, asynchronous transfers and the three copies of scullp are out too.
- Scullp.Device.Mmap: does not model the gaps between the test of the order, the load and the store of the count, because one task runs it; the race module has the gaps, and there mappings that a fork copies are out.
- Pipe.ScullPipe.Read: does not model waiting, nor does the write; the protocol module does. Polling, signals to asynchronous readers and reads of the two pointers that are torn are out.
- PipeProtocol.RunKeepsInv: does not model opens during a run, because a further open resets the pointers; what may follow one, until the next, is stated separately.
- Trims of the access-controlled devices are one step, so two at once are not shown; neither are those of the private devices, which take no mutex either.
- Shortprint's input side, which is lossy, and the wait in release; arming the timer is idempotent; writers that wait for the mutex are not shown, as only its holder acts.
- Snull.Device.ReleaseBuffer: does not model that the buffer may move between the unlock, the two tests and the restart, because one task runs it; the protocol module has the gaps.
- SnullProtocol.RunKeepsInv: does not model the steps after a buffer was taken from an empty pool, because the code then follows a null pointer; simulated lockups, transmit timeouts, closing with packets outstanding and a pool that was only partly allocated are out.
- Snull.HwTx: does not model the rewriting of the frame's addresses and checksum, because the frame is opaque.
- DdkMem.File.Seek: does not model the 16-bit values of the control messages, because positions fit them on the device; the ioctls that set offsets and register access are out, and so are a transfer that sends no byte and several files on one device.
- DdkExt.RunKeepsTracked: does not model the statistics under interleaving, because one section updates each; the class beside it has them. Blink delays are time.
- Time, weak memory, message output, module and device registration, and the other drivers of the repository.
