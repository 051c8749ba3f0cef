# SystemScope, verified

SystemScope is a deterministic simulator of a small RISC-V machine. This project models its hardest components in Dafny and
proves what they promise, over every input and every run:

- **Address spaces.** `Space::build` turns a page plan into a list of bus accesses: zero the frames, copy the file bytes, write
  the page tables. The accesses are executed over an arbitrary byte memory, and the CPU's Sv32 walker and the kernel's own
  walker read back what they left. The walk is that of section 4.3.2 of the RISC-V Privileged Architecture (20211203).
- **The modeled kernel.** Frame ownership, the process table and run queue, the stages of a kernel operation, the decisions
  between them (boot from a plan or from disk, syscalls, faults, scheduling), and the engine that holds an ENTER while its
  accesses are issued one at a time. On top of them stands a machine with memory, a running user process, the trap trampoline
  and disk transfers, over which isolation, the whitelist, `write`, context switches and the restoring of snapshots are proved.
- **The multi-master bus**, the **block DMA controller**, the **M3 CPU state machine**, the **event scheduler** and its
  **trace**, the **user ELF parser**, the **executable table** and the **sparse RAM**.

Components whose source changes fields in place are classes (`ProcessTable.Table`, `ModelObject.KernelModel`,
`Gate.ModeledKernel`, `BusObject.MultiMasterBus`, `DmaObject.DmaBlockController`, `CpuObject.Rv32iCpu`,
`SchedulerObject.EventScheduler`, `Ram.SparseRam`). Each method is proved to leave the state a function of the old state gives,
and the theorems about whole runs are about those functions.

## How the pieces stand on each other

1. `Words`, `Memory`, `Config`, `Core`, `Sv32`: bytes, memory as a total map, the access whitelist, access splitting, the walk.
2. `Image`, `UserElf`, `ExecTables`: what may be loaded, and the parsers that produce it.
3. `Space`, `SpaceRun`, `SpaceExact`, `SpaceWalk`, `Creations`, `SpaceTables`: building, executing and walking a space.
4. `Processes`, `Ownership`, `ProcOps`, `Models`, `ModelRun`, `ModelKept`: the kernel without memory.
5. `Machines`, `Isolation`, `TrapFrames`, `Writes`, `WriteRun`, `WriteExact`, `WriteCalls`, `Permits`, `PermitsRun`,
   `PermitsPlan`: the kernel with memory and a running process.
6. `ModelObject`, `Gate`, `GateRun`: the kernel's objects, and the engine joined to the machine. The engine owns the model.
   `RegionImages`, `ModelTight`, `RestoreRun`, `KernelSnapshot`, `KernelRestore`, `GapRun`: its snapshots, and which restore.
7. `Bus*`, `Dma*`, `Privileged`, `Cpu*`, `Scheduler*`, `Trace*`, `Ram`: the other components.
8. `Examples`: a concrete platform that satisfies the hypotheses (`ExampleCreation`, `ExampleMachine`), and the inputs at which
   the code does less than it says.

## Assumptions

- Invariants of the platform builder that the kernel's configuration check does not make: the gate window meets no granted
  range (`KernelConfig.GateApart`), the devices are outside RAM (`Machines.DevicesApart`), the UART register is below the last
  `u64` address (`Permits.Platform`).
- A digest is any function of a digest and an event; decoding, ALU values and branch conditions are any functions of their
  operands.
- Memory, media and bus answer an access as it was asked, or refuse it; which one is arbitrary.
- The trampoline's own stores stay in the trap frame and come only between operations (`Machines.Possible`).
- The DMA run theorems start with enough transaction numbers left for the command (`DmaRun.Room`); without them the engine
  faults the session.
- A user store is translated under the running process's root table. That the trampoline loads `satp` from the trap frame is
  taken as given; that the frame holds the running process's `satp` after a dispatch is proved (`TrapFrames.DispatchDelivers`).

## Where the code does less than it says

- `BootImage::check` promises that every copy stays inside its page (components/os/src/image.rs:223-226). Its test
  `checked_add(..) <= Some(page)` also holds when the sum overflows, because `None` is below every `Some`.
  `Image.AcceptedCopyCanLeaveItsPage` gives an accepted image whose copy leaves its page;
  `Image.AcceptedMeansInPage` proves that the promise holds exactly when no copy's offset and length overflow `u32`. The parser
  never produces such a copy (`UserElfExact.ParsedIsAccepted`), so theorems about disk images need no condition, and theorems
  about host-built plans take it as one.
- No kernel access is meant to cross a page, but nothing asks for an aligned block controller window
  (components/os/src/image.rs:296-317). `Examples.RegisterCanCross` boots a validated configuration that writes the COMMAND
  register across a page; `PermitsRun.CrossesNoPage` proves that no access of any run crosses one exactly when the boot is from
  a plan or no register of the block controller crosses one. The whitelist and the length of 1 to 16 bytes need no condition
  on the block controller's window; for host plans they need the condition above: with the granted ranges below 4 GiB every
  access of a creation passes the whitelist if and only if no copy leaves its page (`PermitsPlan.PermittedIffInPage`), and a
  boot from a plan that breaks the rule reaches an access the whitelist refuses (`PermitsPlan.EscapeReached`,
  `Examples.EscapeCanBoot`).
- The kernel's `restore` is documented to reject a different configuration and the states no run can produce
  (components/os/src/kernel.rs:709-734); it also rejects one that a run does produce. For a `write` under way it takes page `k` of a region to be `k` pages past its start (components/os/src/kernel.rs:1587-1622), but the boot
  check accepts a segment whose pages have gaps (components/os/src/image.rs:355-368). `RegionImages.RegionsExact` proves that
  the regions tell a process's readable pages exactly when the pages of every readable segment follow each other;
  `KernelRestore.RestoresExactly` decides every state a run reaches: its snapshot restores to it exactly when the regions tell
  the pages the `write` has found. `GapRun.RestoresIffFollows` proves that all states of all runs of a plan of one image
  restore if and only if its readable segments have no gap, `Examples.GapCanBoot` boots a plan where it fails, and the parser
  leaves no gap (`UserElfExact.ParsedFollows`), so every state of a boot from disk restores.

## Model

| member | source | states |
|---|---|---|
| `Sv32.Translate` | components/rv32i/src/sv32.rs:185-216 | the loop over table and level gives the walk of section 4.3.2, with every fault |
| `Sv32.WalkKeepsOffset` | components/rv32i/src/sv32.rs:144-180 | a translated address has 34 bits and the virtual address's page offset, whatever the tables hold |
| `UserCopy.Translate` | components/os/src/syscall.rs:210-220 | the kernel's walk loop finds the page a user read may use, or none |
| `UserCopy.WalksAgree` | components/os/src/syscall.rs:168-220 | for every root, address and table memory the kernel's walk gives an address exactly when the CPU's does for a U-mode load with SUM and MXR clear, and the same one, megapages included |
| `UserCopy.IsChunkStart` | components/os/src/syscall.rs:144-153 | the loop decides whether an offset is where an output chunk starts |
| `UserCopy.StartsTile` | components/os/src/syscall.rs:137-153 | chunk starts are exactly the partial sums of the pieces the buffer is split into, so the chunks tile it |
| `Core.ComputeChunks` | components/os/src/core.rs:122-132 | the loop splits a range into its pieces in address order |
| `Core.ChunksTile` | components/os/src/core.rs:122-132 | every piece is 1 to 16 bytes and crosses no page, starts where the ones before end, and together they are the range |
| `Core.ComputeSplitCopy` | components/os/src/space.rs:301-313 | the loop appends the pieces of one copy |
| `Core.SplitCopyPieces` | components/os/src/space.rs:301-313 | every piece is a short access on both sides, at the same offset in both ranges |
| `Core.SplitCopyIsCopy` | components/os/src/space.rs:301-313 | executing the pieces, in order, leaves the same memory as one copy of the range |
| `Config.OverlapsIsSharing` | components/os/src/config.rs:54-62 | two windows overlap exactly when they share a byte |
| `Config.PermitsIsGranted` | components/os/src/config.rs:126-149 | with the gate apart, exactly the accesses one granted range contains are permitted, and none touches the gate |
| `Image.Check` | components/os/src/image.rs:336-383 | the loops with their running last page accept exactly the images that satisfy every rule |
| `Image.AcceptedCopyCanLeaveItsPage` | components/os/src/image.rs:366-374 | an accepted image whose copy leaves its page |
| `Image.AcceptedMeansInPage` | components/os/src/image.rs:366-374 | accepted copies stay in their pages exactly when no offset and length overflow |
| `Space.Build` | components/os/src/space.rs:167-233 | the loop over the pages builds the space: tables on first use of a slot, frames in order, leaves, copies, sorted level-1 entries, regions |
| `Space.PlaceGood` | components/os/src/space.rs:178-213 | after each page the frames taken are a prefix of those given, every page has its leaf, and every frame taken is the root, a table or a page |
| `Creations.FramesExact` | components/os/src/space.rs:78-84 | the frames needed are exactly those taken, in the given order, each once, as the root, a table or a region's page |
| `SpaceRun.ZeroDone` | components/os/src/space.rs:246-296 | the zeroing accesses set every byte of every frame to zero and keep every other byte |
| `SpaceRun.PteRun` | components/os/src/space.rs:268-296 | the accesses after zeroing are the copies, each read then written, then the PTE writes, in order |
| `Creations.BuildThenWalk` | components/os/src/space.rs:167-312 | after all accesses of a creation, over any memory, a U-mode walk of any address gives the page's frame and offset exactly when a planned page with the permission holds it, and a page fault otherwise |
| `Creations.Contents` | components/os/src/space.rs:167-312 | once the copies are made every page frame holds its file bytes at their offsets and zeros elsewhere |
| `Creations.OutsideUntouched` | components/os/src/space.rs:268-296 | no access of a creation, at any step, changes a byte outside its frames |
| `Creations.CreationSafe` | components/os/src/space.rs:167-296 | from the end of zeroing on, at every step, a U-mode walk faults or gives its final translation, to a frame that has its final contents |
| `SpaceTables.TablesDecide` | components/rv32i/src/sv32.rs:144-216 | with its tables as the creation left them a process's translations follow its plan, whatever the rest of memory holds |
| `SpaceTables.TablesStep` | components/os/src/space.rs:268-296 | each access of a creation, with any copied bytes, keeps the tables as the creation leaves them |
| `UserElf.Parse` | elf/src/user.rs:388-473 | the loops over program headers and neighbours give the first failing check or the image |
| `UserElfExact.PrefixIndependent` | elf/src/user.rs:307-357 | a prefix of a file gives the whole file's result or asks for more of it, strictly, never beyond it |
| `UserElfExact.RetriesSettle` | elf/src/user.rs:368-384 | retrying with the bytes asked for settles after at most two retries, after one from a whole ELF header |
| `UserElfExact.PlanExact` | elf/src/user.rs:274-299 | the segment's pages are exactly those its memory touches, and each byte comes from its place in the file or is zero |
| `UserElfExact.PairsApart` | elf/src/user.rs:436-448 | checking neighbours is enough: no two segments share a page |
| `UserElfExact.ParsedFollows` | elf/src/user.rs:274-299 | a parsed file has at most 2^16 segments, and the pages of each follow each other |
| `UserElfExact.ParsedIsAccepted` | components/os/src/image.rs:336-383 | whatever the parser accepts passes every rule of the boot check, its pages ascend across segments, and no copy leaves its page |
| `ExecTables.CheckEntries` | elf/src/exec_table.rs:179-208 | the loops find the first failing range rule, then the first overlapping pair |
| `ExecTables.EntriesAre` | elf/src/exec_table.rs:179-208 | a table passes exactly when every file is on the disk after block 0, fits in staging, and no two share a block |
| `ExecTables.Encode` | elf/src/exec_table.rs:272-290 | writing the words into a zeroed block array gives the block, or a bad count |
| `ExecTables.ParseEncoded` | elf/src/exec_table.rs:215-290 | parsing an encoded table gives it back exactly when its entries pass the checks, and their error otherwise |
| `ExecTables.EncodeParsed` | elf/src/exec_table.rs:215-290 | every block the parser accepts is the encoding of the table it returns |
| `ProcessTable.Table.Reserve` | components/os/src/frames.rs:74-91 | the lowest free frames become the PID's, all or none |
| `ProcessTable.Table.Release` | components/os/src/frames.rs:95-108 | frees all the frames or, when one is not the PID's, none |
| `ProcessTable.Table.Admit` | components/os/src/process.rs:242-260 | the transition's new state and result, violations included |
| `ProcessTable.Table.YieldCurrent` | components/os/src/process.rs:263-275 | the transition's new state and result, violations included |
| `ProcessTable.Table.EndCurrent` | components/os/src/process.rs:279-297 | the transition's new state and result, violations included |
| `ProcessTable.Table.ScheduleNext` | components/os/src/process.rs:302-322 | the transition's new state and result, violations included |
| `ProcessTable.Check` | components/os/src/process.rs:326-405 | the loops, with the recomputed owners, accept exactly the states where every invariant holds |
| `Processes.ReserveKeeps` | components/os/src/frames.rs:74-91 | reserving for a new PID keeps every invariant, with the frames in the creation's hands |
| `Processes.AdmitKeeps` | components/os/src/process.rs:242-260 | admitting the process whose creation holds its frames succeeds, keeps every invariant and queues it last |
| `Processes.YieldKeeps` | components/os/src/process.rs:263-275 | a yield keeps every invariant, queues the process last and leaves nothing running |
| `Processes.EndKeeps` | components/os/src/process.rs:279-297 | ending a process keeps every invariant and frees exactly its frames |
| `Processes.ScheduleKeeps` | components/os/src/process.rs:302-322 | the queue's head becomes the one running process with its context taken, or nothing changes |
| `Ownership.Conserved` | components/os/src/process.rs:377-403 | free frames, the processes' frames and the frames of a creation in flight make up the pool |
| `ProcOps.ContextRoundTrip` | components/os/src/process.rs:110-127 | a context written to the trap frame is read back |
| `ProcOps.FrameRoundTrip` | components/os/src/process.rs:110-127 | the frame's context bytes are determined by the context read from them |
| `ProcOps.CompleteOk` | components/os/src/procop.rs:519-541 | a completed access leaves a stage at its next step with the data that step requires, or finished |
| `ModelRun.CreationGood` | components/os/src/procop.rs:889-918 | trying the images in order ends in a creation with frames of the pool reserved for it, or in a dispatch or shutdown |
| `ModelRun.StagedGood` | components/os/src/procop.rs:1005-1073 | block 0 and executable headers, whatever their bytes, lead to a stage that fits the model |
| `ModelRun.DecideGood` | components/os/src/procop.rs:1114-1145 | any trap frame leads to a stage that fits the model |
| `ModelRun.StartGood` | components/os/src/procop.rs:647-682 | an ENTER at rest, unless the kernel is down, is no violation |
| `ModelRun.AdvanceGood` | components/os/src/procop.rs:686-786 | what follows a finished stage is no violation, and the operation ends down or with a process running |
| `ModelRun.EveryRun` | components/os/src/procop.rs:647-786 | every run from boot, plan or disk, with any answers, has no violation, keeps every table invariant, conserves frames, and ends each operation down or with exactly one process running |
| `ModelObject.KernelModel.NextCreation` | components/os/src/procop.rs:889-918 | the loop that skips images leaves the decision's state and stage, and from a sound boot that stage fits the model |
| `ModelObject.KernelModel.Start` | components/os/src/procop.rs:647-682 | the method leaves the decision's state and stage; at rest before the shutdown it is no violation and the model then serves that stage |
| `ModelObject.KernelModel.Advance` | components/os/src/procop.rs:686-786 | the method leaves the decision's state and stage; serving a stage it is no violation, and the model then serves the next or is at rest |
| `ModelKept.AdvanceKept` | components/os/src/procop.rs:686-786 | no decision moves a live process to other tables, an ended one never lives again, and a Ready one keeps its context until the stage that dispatches it with that context |
| `Machines.UserReaches` | components/rv32i/src/sv32.rs:144-180 | a U-mode translation through a live process's root faults or stays in its own page frames |
| `Machines.KernelMisses` | components/os/src/procop.rs:409-511 | a kernel write to RAM misses the page tables of every live process |
| `Isolation.HappenKeeps` | components/os/src/process.rs:326-405 | a user store, a kernel step, a trampoline store or a disk transfer keeps the machine's invariant |
| `Isolation.TablesNeverChange` | components/os/src/space.rs:167-233 | nothing that happens changes a byte of a live process's page tables |
| `Isolation.OwnFramesOnly` | components/os/src/frames.rs:74-108 | a process reaches only frames it owns and none of its tables |
| `Isolation.NoCommonPage` | components/os/src/process.rs:326-405 | two live processes never reach a common physical page |
| `Isolation.RunsIsolate` | components/os/src/procop.rs:686-786 | over any run a process alive at the end was alive all along in the same tables, whose bytes are the same |
| `WriteExact.HappenSound` | components/os/src/procop.rs:729-783 | everything that can happen keeps what a `write` under way has found and sent |
| `WriteCalls.WriteExactly` | components/os/src/procop.rs:729-863 | in every state a run from boot reaches at the read of a trap frame that asks for `write`, over any run of kernel accesses and disk transfers from there, the call ends after boundedly many accesses, and then the UART has received exactly the buffer's bytes in order and a0 in the frame is their number, or it has received none and a0 is 0, -EBADF or -EFAULT; sepc is past the ecall and no other byte outside staging has changed |
| `TrapFrames.FrameRead` | components/os/src/procop.rs:409-430 | a trap's decision is taken on the frame exactly as it is in memory |
| `TrapFrames.HappenFrame` | components/os/src/procop.rs:519-541 | everything that can happen keeps what a frame read has gathered and a dispatch has written |
| `TrapFrames.DispatchDelivers` | components/os/src/procop.rs:431-438 | in every state a run from boot reaches, a dispatch that has finished, whatever disk transfers came between, has left its context, its satp and the action Resume in the frame |
| `TrapFrames.YieldResumes` | components/os/src/procop.rs:864-871 | in every state a run from boot reaches, a process that yields keeps over any run from there the context it had in the frame, with a0 zero and past its ecall, until it is dispatched with it under its own root |
| `Permits.AccessPermitted` | components/os/src/procop.rs:409-511 | in every sound machine state the access due passes the whitelist and is 1 to 16 bytes |
| `PermitsRun.RunsSound` | components/os/src/procop.rs:686-786 | every run keeps the isolation and write invariants and the source of the processes |
| `PermitsRun.EveryAccessPermitted` | components/os/src/config.rs:126-149 | over every run from boot, from disk or from a plan with no copy that leaves its page, each access the kernel has due passes the whitelist and is 1 to 16 bytes |
| `PermitsPlan.PermittedIffInPage` | components/os/src/image.rs:366-374 | with the granted ranges below 4 GiB every access of a creation from a validated image passes the whitelist if and only if no copy of the image leaves its page |
| `PermitsPlan.EscapeReached` | components/os/src/image.rs:366-374 | any boot from a validated plan whose first image has a copy that leaves its page, in a pool large enough for it, reaches an access the whitelist refuses |
| `Examples.EscapeCanBoot` | components/os/src/image.rs:366-374 | a validated configuration and plan whose boot reaches such an access |
| `PermitsRun.CrossesNoPage` | components/os/src/image.rs:296-317 | no access of any run from boot crosses a page if and only if the boot is from a plan or no register of the block controller crosses one |
| `Examples.RegisterCanCross` | components/os/src/image.rs:296-317 | a validated configuration and disk whose boot writes the COMMAND register across a page |
| `GateRun.ServeEnter` | components/os/src/kernel.rs:318-363 | an ENTER is taken exactly between operations before the shutdown, and takes the engine to the machine's next state, which a run from boot reaches if it reached the one before |
| `GateRun.ServeAccess` | components/os/src/kernel.rs:366-469 | with memory that answers correctly the engine never reaches its whitelist fault or any other but running out of transactions, and each access takes it to the machine's next state, reached from boot if the one before was |
| `Gate.ModeledKernel.Enter` | components/os/src/kernel.rs:318-363 | an ENTER is refused exactly while one is held or after the shutdown; otherwise it is held with its first access due |
| `Gate.ModeledKernel.IssueAccess` | components/os/src/kernel.rs:366-395 | the access due is sent, exactly when permitted, under the next transaction, which is the one outstanding |
| `Gate.ModeledKernel.MemResponse` | components/os/src/kernel.rs:398-469 | only the right answer is taken; the held ENTER is answered exactly when it was the operation's last access, and the ENTERs answered are those accepted, in order, but the one held |
| `RegionImages.RegionsExact` | components/os/src/kernel.rs:1587-1622 | the lookup in a process's regions finds each readable page in its frame and no other page if and only if the pages of every readable segment follow each other, for every accepted image |
| `RegionImages.RegionsRebuild` | components/os/src/space.rs:97-143 | the image the regions of a space describe builds the same root, tables, regions and slots in the same frames, if it has at most 2^16 segments and the pages of each follow each other |
| `ModelTight.StepTight` | components/os/src/kernel.rs:1626-1699 | every event keeps what a restored stage must satisfy: a creation has the lowest frames, block 0 is read before the table is counted, a staging read is at least the first, a shutdown's reason is 0 or 1 |
| `RestoreRun.ReachedRest` | components/os/src/kernel.rs:1291-1327 | in every state a run from boot reaches each live process was built from its plan's image, or from a parsed one, and the stage is one a restore may find |
| `KernelRestore.OwnersBack` | components/os/src/kernel.rs:1274-1290 | the bitmap and the PCBs give back the owner of every frame, once the creation in flight has its own |
| `KernelRestore.RestoresExactly` | components/os/src/kernel.rs:735-823 | the snapshot of any state a run from boot reaches, between accesses or with one outstanding, passes every check and restores to that state, or is refused, the latter exactly when a `write` under way has found pages the running process's regions do not tell |
| `KernelRestore.EveryStateRestores` | components/os/src/kernel.rs:735-823 | every snapshot of every state a run from boot reaches restores to that state, from disk or from plans with no gap in a readable segment |
| `KernelRestore.EngineRestores` | components/os/src/kernel.rs:735-823 | the same of the engine and its model, at every point of its run |
| `GapRun.GapRefused` | components/os/src/kernel.rs:1587-1622 | from any state a boot reaches in which a process with a gap in a readable segment runs, it can ask for a `write` during which the snapshot is refused |
| `GapRun.RestoresIffFollows` | components/os/src/kernel.rs:1587-1622 | all snapshots of all states all runs of a plan of one image reach restore if and only if the pages of every readable segment follow each other |
| `Examples.GapCanBoot` | components/os/src/image.rs:355-368 | a validated plan with a gap, a run of whose boot reaches a state whose snapshot is refused |
| `Bus.RouteIs` | components/platform/src/mmbus.rs:311-319 | a request goes to the one region that holds all its bytes |
| `Bus.SelectFirst` | components/platform/src/mmbus.rs:159-165 | arbitration takes the waiting master nearest the cursor, and none exactly when none waits |
| `BusRun.StepKeeps` | components/platform/src/mmbus.rs:332-526 | every request, wake and response keeps every bus invariant |
| `BusRun.EveryRun` | components/platform/src/mmbus.rs:332-526 | over every run an idle waiting region has a wake coming, FIFOs hold the routed requests not yet forwarded in order, every forwarded one but the active was relayed once to its master under its txn, no master has a txn live twice, and the downstream txns of all regions strictly increase in forwarding order |
| `BusWait.GrantedInTime` | components/platform/src/mmbus.rs:421-474 | a request at position k is forwarded within k + 1 times the number of masters further grants of its region |
| `BusWait.WakeServes` | components/platform/src/mmbus.rs:421-474 | a wake leaves no idle region waiting |
| `BusOrder.InterleavingsAgree` | components/platform/src/mmbus.rs:332-371 | any two interleavings of the masters' requests leave the same bus, and one faults exactly when the other does |
| `BusObject.MultiMasterBus.HandleRequest` | components/platform/src/mmbus.rs:332-371 | the handler leaves the specified state, or faults and changes nothing |
| `BusObject.MultiMasterBus.HandleWake` | components/platform/src/mmbus.rs:421-474 | the pass over the regions leaves the specified state, or stops at the first region for which no downstream txn is left, with exactly the grants before it made |
| `BusObject.MultiMasterBus.HandleResponse` | components/platform/src/mmbus.rs:477-526 | the handler leaves the specified state, or faults and changes nothing |
| `BusRestore.CheckSnapshot` | components/platform/src/mmbus.rs:569-784 | the loops, with their sets of live and downstream txns, accept exactly the snapshots with every request inside its region and no txn live twice |
| `BusRestore.EveryStateRestores` | components/platform/src/mmbus.rs:750-784 | every state a run reaches passes the check its snapshot is restored with |
| `BusObject.MultiMasterBus.Restore` | components/platform/src/mmbus.rs:750-784 | an accepted snapshot becomes the state, a refused one changes nothing |
| `Dma.RegistersOk` | components/platform/src/dma.rs:708-738 | register writes keep every condition `restore` checks |
| `Dma.RegistersAside` | components/platform/src/dma.rs:423-455 | while a command runs no register write touches it, and a COMMAND is rejected |
| `Dma.BeatsInside` | components/platform/src/dma.rs:490-560 | every beat is aligned and inside the aperture, every media request inside the capacity |
| `DmaRun.DoOk` | components/platform/src/dma.rs:1038-1087 | sending a request, taking its result and register writes each keep the engine position predicate |
| `DmaRun.CommandAccepts` | components/platform/src/dma.rs:423-455 | a COMMAND write is accepted exactly when no command runs or awaits its acknowledgement and the registers pass validation, which are then latched with the first request due |
| `DmaRun.CommandCopies` | components/platform/src/dma.rs:490-691 | from the COMMAND write that validation accepts, a fault-free command is under way until the result of exactly 33 times count requests, then done with the READ or WRITE copy made and nothing else changed, whatever the guest writes to the registers while requests are due or outstanding |
| `DmaRun.FailureLeavesPrefix` | components/platform/src/dma.rs:599-691 | a request refused ends the command with its kind's code and leaves exactly the blocks and beats copied before it, register writes in between or not |
| `DmaObject.DmaBlockController.WriteAt` | components/platform/src/dma.rs:708-738 | a register write leaves the specified state, and the line is sent its changes only |
| `DmaObject.DmaBlockController.IssueWake` | components/platform/src/dma.rs:490-539 | the wake sends the specified request, or faults and changes nothing |
| `DmaObject.DmaBlockController.HandleMedia` | components/platform/src/dma.rs:599-633 | the media result leaves the specified state, or faults and changes nothing |
| `DmaObject.DmaBlockController.HandleBeat` | components/platform/src/dma.rs:636-677 | the beat's response leaves the specified state, or faults and changes nothing |
| `Privileged.WriteOk` | components/rv32i/src/privilege.rs:320-354 | a CSR write keeps the alignment, delegation and satp rules and never the mode |
| `CpuRun.StepFacts` | components/rv32i/src/cpu.rs:399-550 | a retiring instruction goes to a multiple of 4, its own trap is no page fault, and an ECALL names the mode |
| `CpuRun.RespondOk` | components/rv32i/src/cpu.rs:798-991 | fetch, walk and memory responses keep the state one the validator restores to itself |
| `CpuRun.CommitOk` | components/rv32i/src/cpu.rs:995-1112 | a commit never faults the session and keeps the state valid |
| `CpuRun.EveryStateRestores` | components/rv32i/src/cpu.rs:1595-1794 | every state a run reaches, for any decoder, responses and interrupt levels, passes the snapshot validator and restores to itself |
| `CpuRun.MachineOnlyByInterrupt` | components/rv32i/src/privilege.rs:358-429 | machine mode is entered from below only by the external interrupt, at mtvec |
| `CpuObject.Rv32iCpu.HandleWake` | components/rv32i/src/cpu.rs:749-795 | the wake leaves the specified state and sends exactly the request of the state it was in, its kind, address, length or data, under the next transaction, or changes nothing |
| `CpuObject.Rv32iCpu.SetLine` | components/rv32i/src/cpu.rs:1115-1124 | a level in the Complete phase changes the interrupt level alone, one outside it nothing, and the state stays one the validator restores to itself |
| `CpuObject.Rv32iCpu.HandleResponse` | components/rv32i/src/cpu.rs:798-991 | the response leaves the specified state, or changes nothing |
| `Scheduler.DispatchOrder` | runtime/src/scheduler.rs:183-240 | over any operations dispatched keys strictly increase and at most the limit run in one tick and phase |
| `Scheduler.SchedulingOrder` | runtime/src/scheduler.rs:183-240 | over any operations the schedules that succeed are numbered in the order they were made, and of two events scheduled for one tick and phase the second is dispatched only after the first |
| `Scheduler.RestoredFuture` | runtime/src/scheduler.rs:244-311 | a snapshot of a reachable scheduler, its queue in any permutation, is accepted and answers every later operation the same |
| `SchedulerObject.EventScheduler.Schedule` | runtime/src/scheduler.rs:183-211 | the method leaves the specified state and result |
| `SchedulerObject.EventScheduler.Pop` | runtime/src/scheduler.rs:218-240 | the method leaves the specified state and result |
| `SchedulerObject.Restore` | runtime/src/scheduler.rs:261-311 | the checks accept exactly the restorable snapshots |
| `Trace.RecordRoundTrip` | runtime/src/trace.rs:47-205 | the event read from a dispatch record is the event that wrote it, for every event |
| `TraceRun.CheckPrefix` | runtime/src/trace.rs:393-431 | the loop accepts exactly the prefixes that replay to the given key and digest |
| `TraceRun.TraceReplays` | runtime/src/runtime.rs:428-482 | at every boundary of a session its own records replay to its last key and chained digest |
| `Ram.SparseRam.Load` | components/platform/src/ram.rs:186-199 | the page-by-page loop reads the flat array |
| `Ram.SparseRam.Store` | components/platform/src/ram.rs:203-227 | the page-by-page loop writes the flat array there and nowhere else, and keeps no all-zero page |
| `Ram.CanonicalUnique` | components/platform/src/ram.rs:203-227 | equal contents mean equal page maps, whatever the history |
| `Ram.SparseRam.Restore` | components/platform/src/ram.rs:380-411 | exactly the canonical page lists are accepted, and become the memory |
| `Ram.SnapshotRestores` | components/platform/src/ram.rs:343-411 | the list of a snapshot is one `restore` accepts, and the map `restore` makes of it is the original |
| `Ram.Reload` | components/platform/src/ram.rs:343-411 | restoring one memory from the snapshot of another of its size succeeds and gives the same pages |

## Left out

- Isolation.HappenKeeps: takes host-built plans whose copies do not overflow (`Machines.PlansInPage`), because the boot check lets such a copy through.
- CpuRun.EveryStateRestores: decoding, ALU values and branch conditions are parameters, because the theorem holds for any of them; components/rv32i/src/decode.rs and immediate.rs are not part of this model.
- TraceRun.TraceReplays: the session is modelled on values, so emission into a shared buffer is not captured.
- `ProcOp` and `Creations`' progress are values the engine replaces, as the source moves them; sharing between them is not captured.
- GapRun.RestoresIffFollows: the equivalence is for plans of one image, because which of several images are created depends on the pool; for every plan each reached state is decided by `KernelRestore.RestoresExactly`, and a plan without a gap is enough by `KernelRestore.EveryStateRestores`.
- KernelRestore.RestoresExactly: the snapshot is a record, so the comparison of the encoded configuration, the element counts and the padding bits of the frame bitmap are not captured.
- The prototype operations of the kernel without processes, and the CPU's M1 and M2 profiles: the same shapes with fewer cases.
- The names and texts of errors, trace notes other than dispatch records, `inspect`, and the byte encodings of snapshots; snapshots are records here.
- Clocks, link latency and phases: an event's phase is a flag of the handlers that check it; ticks only grow.
- The binary heap and the sort algorithms of the standard library: the heap is its events, the sorts are one stable insertion sort, and selection for the snapshot's queue.
- The hash behind the execution digest and the per-component random numbers.
- UART, interrupt controller, the single-master bus, toy components, topology checking, export of traces, command-line tools.
