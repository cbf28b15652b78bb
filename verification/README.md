# PARD-gem5: models of its device and control-plane protocols

PARD-gem5 tags every memory and I/O request with the guest it belongs to (its DSid), lets guests share one
chipset, one memory controller and one set of PCI devices, and manages the sharing through control planes.
This project models the parts of it in which state lives across events, and proves what they guarantee over
every run. `dafny verify dfyconfig.toml` checks all of it.

Each protocol comes in three layers. A `...Spec` module says what each step does, as functions on values. The
proof modules (`...Proofs`, `...Runs`, and those named after a result) show what every step keeps and what
holds of whole runs; the environment (peers, host driver, schedule, refusals) is an arbitrary sequence of
events under a stated premise. The `...Device` modules, `PacketPorts`, `PortProxy`, `PageTables`,
`BiosLoader`, `GuestSystem` and `Boot` hold classes and methods in the form of the source, fields updated in
place and loops with invariants, each proved equal to its function on values. Where the simulator would stop
with a panic or a failed assertion, the functions return that as a value, so that "never panics" is a theorem.

* **Memory bridge** (`BridgeSpec`, `BridgeProofs`, `BridgeRuns`, `BridgeDevice`): credits, wakeups, order and
  bounded stalls, with requests that re-enter the bridge from inside `sendRetry`.
* **Packets through nested components** (`Packets`, `PacketPath`, `PacketPorts`): what comes back to the
  requester, and what a refusal leaves behind.
* **DMA port** (`Chunks`, `DmaPortSpec`, `DmaPortProofs`, `DmaPortDevice`, `DmaPortRefines`): tiling, byte
  accounting, exactly one completion, and what the DMA engine may take the port for.
* **IDE disk** (`DiskSpec`, `DiskInvariants`, `PioHost`, `PioRead`, `PioWrite`, `IdeDiskDevice`): the 14-state
  machine and whole PIO commands.
* **DMA engine and bus master** (`BusMaster`, `DmaEngine`, `DmaCoherence`, `DmaJob`, `DmaTransfer`,
  `DmaReadJob`, `DmaWriteJob`, `DmaProgress`, `DmaAbort`, `DmaReset`, `DmaTogether`, `IdeChannelDevice`): one live
  continuation, aborts and resets, and whole DMA commands from the first table entry to the last byte, by the
  engine alone and together with the port.
* **Control planes** (`ControlPlane`, `AdaptorSpec`, `AdaptorRuns`, `AdaptorDevice`): the register protocol
  under the lock refines atomic gets and sets.
* **Domain boot** (`BootSpec`, `BiosLoader`, `PortProxy`, `LongMode`, `PageTables`, `GuestSystem`, `Boot`).
* **IOHub** (`IohSpec`, `IohRuns`, `IohDevice`: device ownership; `BarSpec`, `BarProofs`, `BarRuns`,
  `BarDevice`: shadowed base address registers; `SharedDevices`: both together).
* **ICH and I/O APIC** (`IchSpec`, `IchRuns`, `IchDevice`, `IoApicSpec`, `IoApicDevice`).

`ByteSeq` holds what they share. The disk follows section 9 (Protocol) of ATA/ATAPI-6, base address registers
section 6.2.5.1 of the PCI Local Bus Specification 3.0, and address translation section 5.3 of the AMD64
Architecture Programmer's Manual, volume 2.

## Where the code does not do what it says

Each of these is modelled as the code has it; the members named prove when it shows and what it then does.

* A request refused downstream keeps its remapped address and what a hook has made of its payload
  (`PacketPath.RefusalIsInvisible`, `PacketPath.RefusalsAccumulate`), although the surrounding code restores the
  sender state. A base address register whose write was refused reads back as the device's own address
  (`BarRuns.ReadsBackAfterRefusalsIff`).
* Neither a mapper nor the system crossbar (PARDSystemXBar) saves the source, so a response finds its requester
  exactly when no such crossbar sits above the first component that does (`PacketPath.ResponseFindsRequester`).
* Guest slices are 2 GB apart, and separate only below that (`PacketPath.SlicesAreDisjoint`).
* With interrupts disabled, a command written while one is pending is not started
  (`DiskInvariants.CommandAfterDisable`).
* A comment says that the R/W bit cannot change during a transfer; the code copies it. That is harmless: a write
  that keeps the start bit leaves the command as it was (`DmaReadJob.RegistersKeepReadState`,
  `DmaWriteJob.RegistersKeepWriteState`). A wide write to the reserved byte before the bus-master status reaches
  the active bit (`BusMaster.RawWriteKeepsActive`).
* A software reset forgets a running transfer but not its event. It keeps the engine coherent exactly when it
  does not reach a disk with a transfer running (`DmaCoherence.ResetIsKeptIff`), and clearing it does not help
  (`DmaCoherence.ResetAndClearIff`). An event that would fetch an entry then panics; one that has read an entry
  carries out the cleared entry, 64 KB from sector 0 to memory address 0, if the image has 128 sectors; a region
  goes on with its pages and panics at its end (`DmaReset.StrayEventAfterReset`, and
  `DmaReset.PageInFlightGoesOn` for a port at work).
* Only ten bits of a control plane number count (`AdaptorSpec.Run`). Reading the command register executes it
  again (`AdaptorSpec.ReadSendsAgain`); outside, that is seen exactly when the command is a set that changes
  something or one that has a handler (`AdaptorSpec.ReadIsSeenIff`).
* `ioh_release` with no known device takes away all devices (`IohRuns.ReleaseIsExactIff`); assigning a device
  that another guest has breaks the table (`IohRuns.AssignIsSafeIffClean`).
* The BAR offset is a 32-bit difference, right exactly when the guest's address is not above the device's
  (`BarRuns.RemapIsRightIff`).
* An address that is in no range of a guest passes through unchanged, so a guest reaches any device that answers
  at the device's own address, whether it has the device or not (`SharedDevices.StrangerReaches`, with a run in
  `SharedDevices.StrangerExists`). What an address reaches is the guest's own exactly under the condition of
  `SharedDevices.OnlyOwnIff`.
* Addresses given to a device are never taken back. A guest that loses a device goes on reaching it through its
  range; a release keeps the guest's ranges on devices in its mask exactly when it takes no device the guest has
  given an address (`SharedDevices.StepLeadsHomeIff`, `SharedDevices.LostButReached`).
* A chipset row has interrupt lines before it has a guest: a pin is heard for nobody exactly from the word that
  holds its line on (`IchRuns.HalfWrittenRowIsHeard`). Pins have one owner each exactly up to the fourth guest
  (`IchRuns.PinsAreOwnIff`); the tool registers a fifth all the same (`IchRuns.FifthSharesPin`).
* The last redirection register let through is one past the table (`IoApicSpec.AccessIsSafeIff`).

## Model

| member | source | states |
|---|---|---|
| BridgeProofs.StepKeepsInv | src/ext/xbridge.cc:77-312 | Every event of the bridge, with any refusals and any requests re-entering from `sendRetry`, keeps credits, order and drivers. |
| BridgeProofs.InvIsArmed | src/ext/xbridge.cc:89-155 | In every reachable state the ports find what they rely on within a call; a request in flight has a reserved place in the response queue. |
| BridgeRuns.RunKeepsInv | src/ext/xbridge.cc:77-312 | So does every run. |
| BridgeRuns.CreditsAreConserved | src/ext/xbridge.cc:107-155 | outstandingResponses = requests owed a response in the request queue + those in flight + queued responses = issued - delivered, within respQueueLimit; neither queue passes its limit although responses are pushed unchecked. |
| BridgeRuns.NoLostWakeup | src/ext/xbridge.cc:157-312 | retryReq implies that the request queue or the credits are exhausted; a queue is non-empty iff it has a send event or awaits a retry, never both; a send that is tried finds a due head and, for a response, a credit to return. |
| BridgeRuns.BridgeIsTransparentFifo | src/ext/xbridge.cc:167-300 | What leaves is a prefix of what came in, in order; each response carries back the source and the sender-state stack of a distinct accepted request. |
| BridgeRuns.StalledStep | src/ext/xbridge.cc:157-165 | While a request is stalled each productive event sends the retry or uses up held work. |
| BridgeRuns.StallIsBounded | src/ext/xbridge.cc:157-165 | A stalled request gets its retry before more packets have moved than the bridge was holding. |
| BridgeRuns.StalledBridgeIsNotStuck | src/ext/xbridge.cc:157-312 | A stalled bridge always holds a packet that a driver or the downstream side is bound to move. |
| BridgeRuns.RetriesNeverUnsent | src/ext/xbridge.cc:157-165 | The number of retries sent never falls. |
| BridgeDevice.XBridge.constructor | src/ext/xbridge.cc:56-76 | Empty queues, no credit in use, nothing scheduled. |
| BridgeDevice.XBridge.RecvTimingReq | src/ext/xbridge.cc:107-155 | Accepts or stalls as the specification does; a stall sets retryReq. |
| BridgeDevice.XBridge.SchedTimingReq | src/ext/xbridge.cc:167-191 | Marks and queues a request and arms the send event if the queue was empty. |
| BridgeDevice.XBridge.RetryStalledReq | src/ext/xbridge.cc:157-165 | Clears the flag before the retry, so that requests re-entering from it may set it again. |
| BridgeDevice.XBridge.TrySendRequest | src/ext/xbridge.cc:220-256 | Sends the head or waits for a retry, re-arms for the next head, then retries a stalled request. |
| BridgeDevice.XBridge.RecvTimingResp | src/ext/xbridge.cc:89-105 | A response is queued after the delay, with no check of the queue. |
| BridgeDevice.XBridge.SchedTimingResp | src/ext/xbridge.cc:193-218 | Restores destination and sender state and queues the response. |
| BridgeDevice.XBridge.TrySendResponse | src/ext/xbridge.cc:258-300 | Sends the head response, returns its credit and retries a stalled request. |
| BridgeDevice.XBridge.OnRequestEvent | src/ext/xbridge.cc:220-256 | The scheduled send of a request. |
| BridgeDevice.XBridge.OnResponseEvent | src/ext/xbridge.cc:258-300 | The scheduled send of a response. |
| BridgeDevice.XBridge.RecvRetryFromDownstream | src/ext/xbridge.cc:302-306 | The peer lets the waiting request be tried again. |
| BridgeDevice.XBridge.RecvRetryFromUpstream | src/ext/xbridge.cc:308-312 | The same for responses. |
| Packets.PopUndoesPush | src/mem/pard_mem_ctrl.cc:72-81 | Pushing and popping a sender state leaves the stack. |
| PacketPath.RoundTripRestores | src/ext/xbridge.cc:167-256 | For any nesting of bridges, mappers with any hooks, crossbars and the memory controller the response comes back with the address and the sender-state stack of the request and with the data as the hooks leave it, and each component finds its own mark. |
| PacketPath.ResponseFindsRequester | src/mem/tag_addr_mapper.cc:120-179 | The destination is the requester, for all port numbers, iff no system crossbar (PARDSystemXBar) precedes the first component that saves the source. |
| PacketPath.RefusalIsInvisible | src/mem/tag_addr_mapper.cc:120-144 | A refused request is left as it came iff its address did not change, the hook left its payload alone and no foreign sender state was popped. |
| PacketPath.RefusedResponseIsSameIff | src/mem/tag_addr_mapper.cc:146-179 | A refused response that is offered again arrives as if there had been no refusal iff the hook leaves its own result alone. |
| PacketPath.RefusalsAccumulate | src/mem/pard_mem_ctrl.cc:62-84 | After k refusals the address is k slices up; the accepted request reaches the guest's own address iff k = 0 or the guest is 0. |
| PacketPath.SlicesAreDisjoint | src/mem/pard_mem_ctrl.cc:38-49 | Two guests meet in physical memory exactly when one uses an address past its slice by the distance of the slices. |
| PacketPorts.MemCtrlRecvTimingReq | src/mem/pard_mem_ctrl.cc:62-84 | Remaps, saves address and source, and undoes the sender state but not the address on refusal. |
| PacketPorts.MemCtrlRecvTimingResp | src/mem/pard_mem_ctrl.cc:96-131 | Restores address and destination; a refused response is exactly as received. |
| PacketPorts.MapperRecvTimingReq | src/mem/tag_addr_mapper.cc:120-144 | Remaps, then hooks, for any remapping and any hook; on refusal undoes the sender state but neither address nor payload. |
| PacketPorts.MapperRecvTimingResp | src/mem/tag_addr_mapper.cc:146-179 | Hooks, then restores the address; a refused response is as received but for what the hook did to its payload. |
| Chunks.SplitTiles | src/dev/pard/dma_device.cc:175-191 | The chunks of an action lie end to end and cover exactly its range, and none crosses a block boundary. |
| Chunks.TilesCoverOnce | src/dev/pard/dma_device.cc:175-191 | Every byte is in exactly one chunk, at the data offset that belongs to its address. |
| DmaPortProofs.StepKeepsInv | src/dev/pard/dma_device.cc:60-269 | Every event of the port keeps the accounts and a single armed send. |
| DmaPortProofs.EveryActionCompletesOnce | src/dev/pard/dma_device.cc:60-269 | Over every run with overlapping actions, refusals and responses in any order: pendingCount = queued + in flight, numBytes + bytes outstanding = totBytes, the completion is signalled exactly once and with the last byte, and a drain is wanted only while something is pending. |
| DmaPortProofs.IdleMeansAllDone | src/dev/pard/dma_device.cc:60-104 | With nothing pending every action has been answered and signalled. |
| DmaPortProofs.ResponseKeepsInv | src/dev/pard/dma_device.cc:60-104 | A response is always expected; a drain is signalled only when nothing is pending, a completion only when its action is over. |
| DmaPortProofs.AtomicActionIsComplete | src/dev/pard/dma_device.cc:255-266 | In atomic mode an action is over, and signalled once, when it returns. |
| DmaPortDevice.DmaPort.QueueAction | src/dev/pard/dma_device.cc:157-207 | The chunk loop queues exactly the packets of the split, with one record for all. |
| DmaPortDevice.DmaPort.TrySendTimingReq | src/dev/pard/dma_device.cc:209-236 | Sends the head or notes the refusal, and schedules the next send. |
| DmaPortDevice.DmaPort.SendDma | src/dev/pard/dma_device.cc:238-254 | Sends unless a send is already due. |
| DmaPortDevice.DmaPort.HandleResp | src/dev/pard/dma_device.cc:60-104 | Credits the bytes, completes the action with the last of them, signals a wanted drain at zero pending. |
| DmaPortDevice.DmaPort.DmaActionTiming | src/dev/pard/dma_device.cc:157-197 | An action in timing mode is the specification's step. |
| DmaPortDevice.DmaPort.DmaActionAtomic | src/dev/pard/dma_device.cc:238-269 | An action in atomic mode sends and answers everything in one go. |
| DmaPortDevice.DmaPort.OnSendEvent | src/dev/pard/dma_device.cc:238-254 | The scheduled send. |
| DmaPortDevice.DmaPort.RecvRetry | src/dev/pard/dma_device.cc:150-155 | A retry tries the head again. |
| DmaPortDevice.DmaPort.RecvTimingResp | src/dev/pard/dma_device.cc:106-114 | A response in flight is handled and leaves the flight. |
| DmaPortDevice.DmaPort.Drain | src/dev/pard/dma_device.cc:140-148 | Returns 0 iff nothing is pending, else remembers who waits. |
| DmaPortRefines.ActionBegins | src/dev/pard/dma_device.cc:157-207 | A queued action is the DMA engine's operation with all of its bytes still to come. |
| DmaPortRefines.ResponseMoves | src/dev/pard/dma_device.cc:60-104 | A response of the action answers a non-empty set of its missing bytes, at their addresses; the action is over, and signalled once if it asked for it, iff none is missing. |
| DmaPortRefines.OthersLeaveAction | src/dev/pard/dma_device.cc:60-269 | Any other event of the port leaves the operation as it is. |
| DmaPortRefines.PortRefinesOracle | src/dev/pard/dma_device.cc:60-269 | Every run of the port, with other actions, refusals and any order of responses, moves only missing bytes of the engine's operation and completes it exactly when the last is answered. |
| DiskInvariants.ActionKeepsStable | src/dev/pard/ide_disk.cc:768-1065 | Every action of the state machine keeps the disk stable or panics for a reason other than its interrupts. |
| DiskInvariants.AccessKeepsStable | src/dev/pard/ide_disk.cc:206-328 | Every register access leaves the disk outside Command_Execution and the Prepare states; outside Device_Srst BSY is clear, DRQ is set exactly in the data, DMA and abort states, and the interrupt is pending exactly in the three interrupt states. |
| DiskInvariants.RunsStayStable | src/dev/pard/ide_disk.cc:735-1065 | So every run; "post with one pending" and "clear a non-pending interrupt" are unreachable, and no counter underflows. |
| DiskInvariants.PowerOnRunsStayStable | src/dev/pard/ide_disk.cc:143-185 | In particular every run from reset. |
| DiskInvariants.ReadyToMoveData | src/dev/pard/ide_disk.cc:885-993 | Outside DMA and reset an access to the data register does something, and only one of reading and writing does, iff DRQ is set with no interrupt pending; else it changes nothing, but for the interrupt left by disabling interrupts. |
| DiskInvariants.ReadWordIgnored | src/dev/pard/ide_disk.cc:794-918 | A read of the data register changes nothing iff the disk is not in Transfer_Data_In nor in Device_Idle_SI with interrupts disabled. |
| DiskInvariants.WriteWordIgnored | src/dev/pard/ide_disk.cc:794-993 | A write of the data register changes only that register iff the disk is not in Transfer_Data_Out nor in Device_Idle_SI with interrupts disabled. |
| DiskInvariants.CommandAfterDisable | src/dev/pard/ide_disk.cc:794-806 | A command written in Device_Idle_SI is started iff interrupts are enabled. |
| PioRead.ReadReturnsSectors | src/dev/pard/ide_disk.cc:834-918 | For every LBA, sector count (0 for 256) and protocol-following host with 16- or 32-bit reads, the words taken are a prefix of sectors LBA..LBA+n-1, and the disk is idle exactly when they are all taken. |
| PioRead.ReadInProgress | src/dev/pard/ide_disk.cc:834-918 | The same from any point of a read on, with the exact position. |
| PioRead.ReadCanGoOn | src/dev/pard/ide_disk.cc:878-918 | While words are missing, status and then data is a conforming step and takes exactly the next word. |
| PioRead.WordOfSectors | src/dev/pard/ide_disk.cc:885-918 | Which word of which sector stands at each place of the expected sequence. |
| PioWrite.WriteStoresSectors | src/dev/pard/ide_disk.cc:920-993 | The host cannot give more words than fit; the full sectors given are on the image, nothing else on it changed, and the disk is idle exactly when all words are given. |
| PioWrite.WrittenAt | src/dev/pard/ide_disk.cc:959-993 | Each sector of the image after a write: the given words in range, the old content elsewhere. |
| PioWrite.ReadBack | src/dev/pard/ide_disk.cc:834-993 | The words read from a written range are the words written. |
| PioWrite.WriteThenReadIsIdentity | src/dev/pard/ide_disk.cc:834-993 | A finished write and a finished read of the same range are the identity, whatever accesses moved the words. |
| IdeDiskDevice.IdeDisk.constructor | src/dev/pard/ide_disk.cc:70-135 | A new disk is a reset disk. |
| IdeDiskDevice.IdeDisk.ResetDevice | src/dev/pard/ide_disk.cc:154-185 | Clears registers, buffer and states; the table entry of the lines before is cleared by IdeChannelDevice.Channel.ForgetEntry. |
| IdeDiskDevice.IdeDisk.UpdateState | src/dev/pard/ide_disk.cc:768-1065 | The whole switch is the specification's state machine; its recursion through StartCommand ends. |
| IdeDiskDevice.IdeDisk.StartCommand | src/dev/pard/ide_disk.cc:621-729 | Decodes, sets up and goes on, or panics, as specified. |
| IdeDiskDevice.IdeDisk.Decode | src/dev/pard/ide_disk.cc:621-716 | Each supported command enters its state with its counters; CHS access and unknown commands panic. |
| IdeDiskDevice.IdeDisk.IntrPost | src/dev/pard/ide_disk.cc:735-748 | Posts and calls the controller, or panics if one is pending. |
| IdeDiskDevice.IdeDisk.IntrClear | src/dev/pard/ide_disk.cc:750-762 | Clears, or panics if none is pending. |
| IdeDiskDevice.IdeDisk.FinishCommand | src/dev/pard/ide_disk.hh:352-360 | Status complete, then idle with or without an interrupt. |
| IdeDiskDevice.IdeDisk.UpdateStatePrepareIn | src/dev/pard/ide_disk.cc:834-876 | A block is loaded and its first word offered. |
| IdeDiskDevice.IdeDisk.UpdateStateTransferIn | src/dev/pard/ide_disk.cc:885-918 | A word is taken; at the end of a block the next is prepared, at the end of the command the disk idles. |
| IdeDiskDevice.IdeDisk.UpdateStateTransferOut | src/dev/pard/ide_disk.cc:959-993 | A word goes to the buffer, a full block to the image. |
| IdeDiskDevice.IdeDisk.CopyIn | src/dev/pard/ide_disk.cc:851-867 | The buffer is overwritten in place, exactly there. |
| IdeDiskDevice.IdeDisk.ReadData32 | src/dev/pard/ide_disk.cc:206-221 | Two 16-bit reads. |
| IdeDiskDevice.IdeDisk.WriteData32 | src/dev/pard/ide_disk.cc:262-277 | Two 16-bit writes. |
| IdeDiskDevice.IdeDisk.WriteControl | src/dev/pard/ide_disk.cc:310-328 | Software reset and the interrupt-enable bit. |
| BusMaster.RawWriteKeepsActive | src/dev/pard/ide_ctrl.cc:453-458 | A write outside the command and status offsets keeps the active bit iff it does not reach the status byte or repeats the bit. |
| DmaEngine.PrdCountIsSmall | src/dev/pard/ide_disk.hh:79-99 | A byte count is at most 64 KB, 0 meaning all of it. |
| DmaCoherence.StepIsKept | src/dev/pard/ide_disk.cc:334-619 | Every event (register access, start, stop, due continuation, answered bytes, completion) keeps the invariant or stops for an excusable reason. |
| DmaCoherence.RunsStayCoherent | src/dev/pard/ide_disk.cc:1067-1108 | Over every run exactly one continuation is live iff dmaState is Dma_Transfer, dmaAborted iff Device_Dma_Abort, start and active bits are set iff transferring and not aborted; so the mutual-exclusion assertion holds and no "inconsistent state" panic is reached. |
| DmaCoherence.NextEventResolvesAbort | src/dev/pard/ide_disk.cc:334-343 | An aborted command is over, with all registers at rest, after the next event, whichever it is. |
| DmaCoherence.PowerOnIsCoherent | src/dev/pard/ide_disk.cc:143-185 | The invariant holds at reset. |
| DmaCoherence.ResetIsKeptIff | src/dev/pard/ide_disk.cc:310-322 | Setting the reset bit keeps the invariant iff it does not reach a disk with a transfer running. |
| DmaCoherence.ResetAndClearIff | src/dev/pard/ide_disk.cc:310-322 | After the two accesses that set and clear it the invariant holds iff no transfer was running. |
| DmaReset.StrayEventAfterReset | src/dev/pard/ide_disk.cc:334-562 | What the forgotten event does: one that would fetch an entry panics; one that has read an entry loads the first 128 sectors towards address 0, or panics iff the image has fewer; a region goes on with the pages it was made for and panics at its end, exactly as stated. |
| DmaReset.ForgottenEntry | src/dev/pard/ide_disk.cc:151-153 | The entry that a reset leaves: base 0, 64 KB, not the last. |
| DmaReset.PageInFlightGoesOn | src/dev/pard/ide_disk.cc:143-153 | Bytes in flight at the reset move as if there had been none, from and to the buffer given up; of an entry in flight those answered before are cleared. |
| DmaReset.StrayAfterPage | src/dev/pard/ide_disk.cc:334-353 | When all of it is answered the event is as stray as one scheduled at the reset, but for the bytes of an entry that have come since. |
| DmaAbort.AbortedRunLeaves | src/dev/pard/ide_disk.cc:334-619 | Over every run of a stopped command until it is at rest, whatever host and port do, memory changes in one region at most and the image does not; it ends at rest. |
| DmaAbort.AbortedReadStaysInside | src/dev/pard/ide_disk.cc:334-619 | A READ DMA that is stopped has delivered the regions before the one at work, and outside the regions of its table memory is as it was. |
| DmaAbort.AbortedWriteStaysInside | src/dev/pard/ide_disk.cc:334-619 | A WRITE DMA that is stopped has stored the regions before the one at work, and outside the sectors of the command the image, and all of memory, is as it was. |
| DmaCoherence.AccessLeavesDma | src/dev/pard/ide_disk.cc:206-328 | No register access but a reset touches a running transfer. |
| DmaJob.LoadedSectors | src/dev/pard/ide_disk.cc:493-500 | The sector loop fills the buffer with exactly the next sectors. |
| DmaJob.StoredSectors | src/dev/pard/ide_disk.cc:466-473 | The sector loop stores exactly the buffer, on exactly the next sectors. |
| DmaReadJob.ReadStep | src/dev/pard/ide_disk.cc:334-561 | One event of a READ DMA never stops the simulator and leaves the engine at the same entry, the next, or done. |
| DmaReadJob.RegistersKeepReadState | src/dev/pard/ide_ctrl.cc:384-458 | No bus-master write that neither starts nor stops, whatever it does to the R/W bit, status and table address, changes where a READ DMA is or what it delivers. |
| DmaReadJob.ReadDmaDeliversSectors | src/dev/pard/ide_disk.cc:334-561 | For every well-formed table and every schedule of back-offs and partial answers no run stops the simulator, and when the command ends cmdBytesLeft is 0, memory holds exactly the requested sectors in table order and nothing else changed. |
| DmaReadJob.ReadDmaBegins | src/dev/pard/ide_disk.cc:591-607 | The start bit leads into such a run. |
| DmaReadJob.ReadDmaCommandBegins | src/dev/pard/ide_disk.cc:591-729 | From an idle disk the command and the start bit lead into such a run for exactly the sectors the registers name. |
| DmaWriteJob.WriteDmaCommandBegins | src/dev/pard/ide_disk.cc:591-729 | The same for WRITE DMA. |
| DmaWriteJob.WriteDmaStoresRegions | src/dev/pard/ide_disk.cc:334-561 | The same for WRITE DMA: the sectors hold exactly the bytes of the regions, all others and memory are unchanged. |
| DmaWriteJob.WriteStep | src/dev/pard/ide_disk.cc:334-561 | One event of a WRITE DMA, as for READ DMA. |
| DmaWriteJob.RegistersKeepWriteState | src/dev/pard/ide_ctrl.cc:384-458 | The same for WRITE DMA. |
| DmaWriteJob.WriteDmaBegins | src/dev/pard/ide_disk.cc:591-607 | The start bit leads into such a run. |
| DmaTransfer.CommandAsksForDma | src/dev/pard/ide_disk.cc:697-713 | A DMA command brings an idle disk to Dma_Start with its sector range set up. |
| DmaProgress.ReadDmaEnds | src/dev/pard/ide_disk.cc:334-561 | A READ DMA takes at most a computable number of productive events, however back-offs, answers and status reads are mixed. |
| DmaProgress.WriteDmaEnds | src/dev/pard/ide_disk.cc:334-561 | The same for WRITE DMA. |
| DmaProgress.DmaCanGoOn | src/dev/pard/ide_disk.cc:334-561 | While a command is not over a productive event can come. |
| DmaProgress.StepShrinks | src/dev/pard/ide_disk.cc:334-561 | Every productive event shrinks what is left to do. |
| DmaTogether.StepTogether | src/dev/pard/ide_disk.cc:334-561 | One event of engine and port together is none, one or two events of the engine alone that the engine expects; the command goes on or is done. |
| DmaTogether.TogetherIsJobRun | src/dev/pard/ide_disk.cc:334-561 | Every run of the two, with refusals, responses in any order and other devices' actions in between, is a run of the engine alone with the same end, and nothing in it is out of place. |
| DmaTogether.ReadDmaDelivers | src/dev/pard/ide_disk.cc:334-561 | So a READ DMA delivers exactly its sectors in every run of the two. |
| DmaTogether.WriteDmaStores | src/dev/pard/ide_disk.cc:334-561 | And a WRITE DMA stores exactly its regions. |
| IdeChannelDevice.Channel.AccessCommand | src/dev/pard/ide_ctrl.cc:342-375 | Selecting and passing on an access is the specification's step, with its answer; with nobody selected an access of more than one byte fails the assertion. |
| IdeChannelDevice.Channel.ForgetEntry | src/dev/pard/ide_disk.cc:143-153 | A reset clears the current entry and its address and gives up the buffer; generator and events stay. |
| IdeChannelDevice.Channel.WriteCommandRegister | src/dev/pard/ide_ctrl.cc:384-415 | Start and stop bits start and abort the engine; the rest is copied. |
| IdeChannelDevice.Channel.WriteStatusRegister | src/dev/pard/ide_ctrl.cc:416-447 | The active bit is read-only; interrupt and error are cleared by writing 1. |
| IdeChannelDevice.Channel.UpdateState | src/dev/pard/ide_ctrl.cc:144-167 | Every posted interrupt sets the interrupt bit; the end of a DMA command also clears start and active. |
| IdeChannelDevice.Channel.StartDmaTransfer | src/dev/pard/ide_disk.cc:591-607 | Starts from Dma_Start only, at the table address. |
| IdeChannelDevice.Channel.AbortDmaTransfer | src/dev/pard/ide_disk.cc:609-619 | Aborts a command that has started. |
| IdeChannelDevice.Channel.DoTransfer | src/dev/pard/ide_disk.cc:334-353 | Aborts, backs off or reads the next entry. |
| IdeChannelDevice.Channel.PrdDone | src/dev/pard/ide_disk.cc:355-389 | An entry has been read: wait for the region, or load its sectors. |
| IdeChannelDevice.Channel.LoadRegion | src/dev/pard/ide_disk.cc:484-505 | The sectors of a region are loaded into a cleared buffer. |
| IdeChannelDevice.Channel.DoRead | src/dev/pard/ide_disk.cc:422-459 | Aborts, backs off, reads the next page, or ends the region. |
| IdeChannelDevice.Channel.ReadDone | src/dev/pard/ide_disk.cc:461-482 | Stores the region's sectors; the last region ends the command. |
| IdeChannelDevice.Channel.DoWrite | src/dev/pard/ide_disk.cc:507-546 | The same towards memory. |
| IdeChannelDevice.Channel.EndOfRegion | src/dev/pard/ide_disk.cc:548-562 | The last region ends the command, any other fetches the next entry. |
| IdeChannelDevice.Channel.ReadSectors | src/dev/pard/ide_disk.cc:493-500 | The loop over sectors is the specification's. |
| IdeChannelDevice.Channel.WriteSectors | src/dev/pard/ide_disk.cc:466-473 | And back. |
| IdeChannelDevice.Channel.Process | src/dev/pard/ide_disk.cc:334-561 | A due event is the specification's step. |
| ControlPlane.ParseAddr | src/arch/x86/pardg5v_system_cp.cc:102-142 | An address leads into a table, with a whole quadword inside it, or nowhere. |
| ControlPlane.BytesAreLatest | src/arch/x86/pardg5v_system_cp.cc:144-176 | After any updates each byte is the one the latest update of it left, overlapping ones included. |
| ControlPlane.QueryReturnsLatest | src/arch/x86/pardg5v_system_cp.cc:144-176 | A query returns the latest bytes, all ones outside the tables whatever was written there. |
| ControlPlane.UpdateAt | src/arch/x86/pardg5v_system_cp.cc:161-176 | An update changes the eight bytes it names and no other. |
| AdaptorSpec.Run | src/prm/CPAdaptor.cc:72-121 | A program's accesses stay on the selected plane and none is refused. |
| AdaptorSpec.ProgramIsAtomic | system/modules/cpa/access.c:3-57 | From any register contents a whole program is one atomic operation: result, tables and commands. |
| AdaptorSpec.ReadIsSeenIff | src/prm/CPConnector.cc:102-154 | A read changes tables or commands iff it is of the command register and the command there is a set that changes the table or one that a handler takes. |
| AdaptorSpec.ReadSendsAgain | src/prm/CPConnector.cc:126-151 | After a command has been sent, reading the register sends it once more. |
| AdaptorRuns.InterleavingsAreAtomic | system/modules/cpa/access.c:3-57 | Every interleaving of any number of clients has the results and, when the lock is free, the tables and commands of whole operations one after the other in lock order. |
| AdaptorRuns.GetsReturnLatestSets | system/modules/cpa/access.c:3-57 | Each byte of each get is the one the latest earlier set to that plane left, although select, domain, address, data and command registers are shared. |
| AdaptorRuns.HolderCanGoOn | src/prm/CPAdaptor.cc:91-121 | Whoever holds the lock can always go on: no access is refused. |
| AdaptorRuns.ReplayIsUpdates | src/arch/x86/pardg5v_system_cp.cc:161-176 | The replayed table is the one the sets to this plane make. |
| AdaptorDevice.Adaptor.CheckMap | src/prm/CPAdaptor.cc:91-110 | The search accepts exactly the offsets and sizes of the register map. |
| AdaptorDevice.Adaptor.AccessCommand | src/prm/CPAdaptor.cc:73-88 | Sets the select register. |
| AdaptorDevice.Adaptor.WriteData | src/prm/CPConnector.cc:102-154 | Refused outside the map, else the specified access. |
| AdaptorDevice.Adaptor.ReadData | src/prm/CPConnector.cc:102-154 | The same for reads. |
| AdaptorDevice.Adaptor.RunCommand | src/prm/CPConnector.cc:126-151 | Get, set, a handled command, or 0xFF for an unknown one. |
| AdaptorDevice.Adaptor.ReadConfigQword | system/modules/cpa/access.c:3-20 | Returns the quadword and changes no table. |
| AdaptorDevice.Adaptor.WriteConfigQword | system/modules/cpa/access.c:22-38 | Changes that quadword of that plane and nothing else. |
| AdaptorDevice.Adaptor.WriteCommand | system/modules/cpa/access.c:40-57 | The command is carried out once, with these arguments. |
| PortProxy.Proxy.WriteBlob | src/mem/pard_port_proxy.cc:47-61 | The packets of a blob are one contiguous write to this guest's memory. |
| PortProxy.Proxy.ReadBlob | src/mem/pard_port_proxy.cc:31-45 | And one contiguous read. |
| PageTables.TablesMapIdentity | src/arch/x86/pardg5v_system.cc:336-407 | A four-level walk from CR3 = 0x70000 maps every address below 4 GB to itself through a 2 MB page open for writing and user mode, and every other 48-bit address meets an entry that is not present. |
| PageTables.EntryIs | src/arch/x86/pardg5v_system.cc:247-250 | Each entry of each table as the walk reads it. |
| PageTables.BuildPml4 | src/arch/x86/pardg5v_system.cc:353-359 | The first loop, then the one entry in use. |
| PageTables.BuildPdpt | src/arch/x86/pardg5v_system.cc:363-375 | The second loop, then the four entries in use. |
| PageTables.BuildPdts | src/arch/x86/pardg5v_system.cc:379-389 | The nested loop over four directories. |
| PageTables.BuildPageTables | src/arch/x86/pardg5v_system.cc:346-389 | All tables complete, no table disturbs another, nothing outside them is written. |
| BootSpec.SegmentRoundTrip | system/utils/biosloader.c:224-238 | A segment slot reads back as base, size and offset. |
| BootSpec.HeadRoundTrip | system/utils/biosloader.c:250-256 | The published head reads back as valid with the DSid. |
| BootSpec.FlatAt | system/utils/biosloader.c:215-222 | Each piece lies at the offset noted for it. |
| BootSpec.BootPlacesSegments | src/arch/x86/pardg5v_system.cc:430-469 | From a described row every segment arrives in guest memory byte for byte, and no other byte changes. |
| BiosLoader.FindFreeRow | system/utils/biosloader.c:190-212 | The search ends, at the first row that is not valid, or at the word that reads all ones. |
| BiosLoader.SearchFailsOnlyWhenFull | system/utils/biosloader.c:190-212 | It fails with a free row only behind a row of all ones. |
| BiosLoader.WriteConfigMemory | system/utils/biosloader.c:118-139 | The quadword loop is one contiguous write to configuration memory. |
| BiosLoader.PlaceData | system/utils/biosloader.c:215-222 | All pieces end to end from 0, each offset noted. |
| BiosLoader.WriteSlots | system/utils/biosloader.c:224-238 | Every slot describes its piece; nothing else in the row changes. |
| BiosLoader.Publish | system/utils/biosloader.c:240-257 | The mask, and the identity and valid bit last. |
| BiosLoader.LoadBios | system/utils/biosloader.c:190-257 | The first free row describes the guest and its data; every other row and every other plane is as it was. |
| GuestSystem.OneCore | src/arch/x86/pardg5v_system.cc:100-105 | The loader's mask selects one processor, if it exists. |
| GuestSystem.System.FindRow | src/arch/x86/pardg5v_system_cp.cc:65-100 | The first valid row of the guest, or none. |
| GuestSystem.System.SelectCpus | src/arch/x86/pardg5v_system.cc:100-105 | The processors whose bits are set. |
| GuestSystem.System.WriteOutSegment | src/arch/x86/pardg5v_system.cc:451-469 | One segment is copied or refused. |
| GuestSystem.System.CopySegments | src/arch/x86/pardg5v_system.cc:430-436 | The loop copies the segments of the first row of the guest. |
| GuestSystem.System.StartupLDomain | src/arch/x86/pardg5v_system.cc:86-176 | Unknown guests change nothing; else tables, then segments, and the selected processor is tagged and started. |
| Boot.LoadedRowIsFound | src/arch/x86/pardg5v_system_cp.cc:65-100 | The row that was filled is the one found. |
| Boot.LoadingKeepsOthers | system/utils/biosloader.c:190-257 | Loading one guest leaves the others' rows and the premises of the next load. |
| Boot.ZeroTableIsBlank | src/arch/x86/pardg5v_system_cp.cc:51-55 | The zeroed table has these premises. |
| Boot.TablesSurvive | src/arch/x86/pardg5v_system.cc:430-436 | Segments outside the page tables leave them intact. |
| Boot.BootMakesReady | src/arch/x86/pardg5v_system.cc:336-469 | After tables and segments: every segment as given, the identity map, the rest as it was. |
| Boot.MaskSelects | system/utils/biosloader.c:240-246 | The written mask selects the guest's processor. |
| Boot.SendBoot | system/utils/biosloader.c:262-267 | The boot command reaches the system once, with the DSid. |
| Boot.LoadAndBoot | system/utils/biosloader.c:190-267 | For a DSid without a row and up to four segments that do not overlap and fit, guest memory ends up ready, only this guest's memory and this row of the plane's table change, one boot command is sent, and its processor runs; else the table was full, and memory, processors, tags, all planes' tables and commands are as they were. |
| IohRuns.OwnershipIsSound | system/utils/ioh/ioh_list.c:114-208 | Over every run from the zeroed table with no device given to two guests at once: at most one row per DSid, disjoint masks, each mask the net of its guest's assigns and releases, each DMA tag its owner's DSid or 0xFFFF. |
| IohRuns.GuestsShareNothing | src/dev/pard/iohub_cp.cc:86-132 | A device of one guest is no other's, and its DMA carries that guest's DSid. |
| IohRuns.AssignIsSafeIffClean | system/utils/ioh/ioh_list.c:114-165 | An assignment keeps the invariant iff it fails or no device of it belongs to another guest. |
| IohRuns.ReleaseIsExactIff | system/utils/ioh/ioh_list.c:168-208 | A release takes away exactly the devices named iff it names a known one or there is nothing to take. |
| IohRuns.ReleaseOfUnknownClearsAll | system/utils/ioh/ioh_list.c:179-182 | A concrete table on which it takes away all. |
| IohRuns.AssignSteps | system/utils/ioh/ioh_list.c:114-165 | What an assignment does to every guest's mask. |
| IohRuns.ReleaseSteps | system/utils/ioh/ioh_list.c:168-208 | What a release does to every guest's mask. |
| IohRuns.ScanFinds | system/utils/ioh/ioh_list.c:131-148 | The scan ends with the guest's row, or else the first free one if any. |
| IohRuns.UpdateKeepsInv | src/dev/pard/iohub_cp.cc:86-132 | One row update, with its tags, keeps the invariant. |
| IohRuns.GuestsSeeTheirOwn | src/dev/pard/iohub.cc:174-197 | Over every run a guest passes to the configuration space of exactly the devices assigned to it and not released; no two guests pass to one. |
| IohDevice.IoHubCp.MayPass | src/dev/pard/iohub.cc:184-197 | The loop over the mask finds a device with that PCI address iff there is one. |
| IohDevice.IoHubCp.UpdateTable | src/dev/pard/iohub_cp.cc:86-132 | The loop over changed bits retags exactly the devices gained and lost. |
| IohDevice.IoHubCp.GetDeviceMask | src/dev/pard/iohub_cp.cc:202-216 | The mask of the first valid row of the guest. |
| IohDevice.IoHubCp.ScanRows | system/utils/ioh/ioh_list.c:131-148 | The scan loop ends at the word past the table. |
| IohDevice.IoHubCp.IohAssign | system/utils/ioh/ioh_list.c:114-165 | The whole tool is the specification's step, error codes included. |
| IohDevice.IoHubCp.IohRelease | system/utils/ioh/ioh_list.c:168-208 | The same. |
| IohDevice.PciidsToDevmask | system/utils/ioh/ioh_list.c:91-112 | The mask of the known devices among those named. |
| BarProofs.StartupIsSound | src/dev/pard/iohub.cc:103-168 | Registers of one kind get disjoint ranges of the size they ask for, at a base that the device's own masking leaves alone. |
| BarProofs.AllocIs | src/dev/pard/iohub.cc:134-165 | Each base is the start plus the sizes before it; every register is left cleared. |
| BarProofs.ProbeShowsSize | src/dev/pard/pcidev.cc:408-446 | All ones show the size, zero clears. |
| BarRuns.StepKeepsInv | src/dev/pard/iohub.cc:212-257 | Probing, clearing, programming and refused writes keep shadow, ranges and device together. |
| BarRuns.RunsReachDevices | src/dev/pard/iohub.cc:199-206 | Over every run, refused writes included, each address a guest has chosen leads to the same byte of what startup set aside for the register, which is the device's once it answers, and to no other register that answers. |
| BarRuns.RunsKeepDevicesApart | src/dev/pard/iohub.cc:103-168 | At the end of every run registers that answer do so in disjoint ranges. |
| BarRuns.RunKeepsShadows | src/dev/pard/iohub.cc:212-257 | No run changes the address startup gave a register or its size. |
| BarRuns.ReadsBack | src/dev/pard/iohub.cc:228-248 | A register programmed by an accepted write reads back as that write, a probed one shows its size, others are undisturbed; a refused write shows only where the device already has its own address. |
| BarRuns.ReadsBackAfterRefusalsIff | src/dev/pard/iohub.cc:228-248 | A register written after k refusals reads back as the guest wrote it iff k = 0 or it wrote the device's own address, which is what it reads otherwise. |
| BarRuns.ReadHookIsIdempotent | src/dev/pard/iohub.cc:243-248 | The hook on responses leaves its own result alone, so that a refused response is harmless. |
| BarRuns.RemapIsRightIff | src/dev/pard/iohub.cc:236-240 | The remapped address is right iff the guest's address is not above the device's. |
| BarDevice.IoHub.Startup | src/dev/pard/iohub.cc:103-168 | The allocation loop is the specification's. |
| BarDevice.IoHub.WriteRegister | src/dev/pard/iohub.cc:212-243 | The hooked write, and the device if the write is not refused. |
| BarDevice.IoHub.HookRequest | src/dev/pard/iohub.cc:228-243 | Notes the guest's address and range and puts the device's own address into the packet, but for probes and zeros. |
| BarDevice.IoHub.ReadRegister | src/dev/pard/iohub.cc:243-248 | The device, then the hooked read. |
| BarDevice.IoHub.RemapAddr | src/dev/pard/iohub.cc:199-206 | The lookup moves an address by the offset of its range. |
| SharedDevices.StartIsGood | src/dev/pard/iohub.cc:103-168 | The zeroed ownership table and the registers after startup begin such a run. |
| SharedDevices.ReachesIff | src/dev/pard/iohub.cc:199-206 | An access reaches a register that answers iff a range of the guest leads there, or the address is in no range of the guest and is the register's own. |
| SharedDevices.OnlyOwnIff | src/dev/pard/iohub.cc:174-206 | What an address reaches is in the guest's mask iff it lies in a range for an own device (or for one that does not answer yet), or in no range of the guest and at no answering foreign device. |
| SharedDevices.ConfinedIff | src/dev/pard/iohub.cc:174-206 | All that a guest reaches is its own iff its ranges lead to no answering foreign device and hide every byte of those. |
| SharedDevices.LeadsHomeIffSetOwn | src/dev/pard/iohub.cc:228-243 | The ranges of a guest lead only to devices in its mask iff it owns every device that it has given an address. |
| SharedDevices.StepLeadsHomeIff | src/dev/pard/iohub.cc:174-243 | A step keeps them so iff it does not release from that guest a device that it has given an address. |
| SharedDevices.CarefulRunsLeadHome | src/dev/pard/iohub.cc:174-243 | So over every run without such releases what a guest reaches through its ranges is its own. |
| SharedDevices.StrangerReaches | src/dev/pard/iohub.cc:199-206 | In every run a guest that has given no address reaches each device that answers, at the device's own address. |
| SharedDevices.StrangerExists | src/dev/pard/iohub.cc:199-206 | A run, with such releases avoided, in which a guest that has no device reaches one. |
| SharedDevices.AddressesStay | src/dev/pard/iohub.cc:228-243 | An address once led to a device by a range is so for the rest of the run. |
| SharedDevices.LostButReached | src/dev/pard/iohub.cc:199-206 | Also when the guest has lost the device. |
| IchRuns.RunKeepsInv | system/utils/ich/ich_list.c:16-70 | At every word written, over runs of up to 20 registrations with lookups in between: complete rows form a prefix with distinct DSids, selected = row until a lookup normalises one past the fourth. |
| IchRuns.RemapIs | src/dev/cellx/ich_cp.cc:127-166 | Each of the first four guests sees its own set once registered and nothing before, any further one nothing; no word but the last changes any address. |
| IchRuns.GuestsAreSeparate | src/dev/cellx/ich_cp.cc:127-166 | Two guests' addresses meet only in CMOS, at the I/O APIC or at port 0. |
| IchRuns.TargetsAre | src/dev/cellx/ich_cp.cc:168-183 | The exact targets of every pin in every state: the registered guests with a line for it, and nobody's line of a row in progress iff its word has been written. |
| IchRuns.OwnersAre | system/utils/ich/ich_list.c:55-57 | Among up to four guests a pin below 8 has one owner at most, who hears it on line 2 or 4. |
| IchRuns.ClockReachesAll | src/dev/cellx/ich_cp.cc:168-183 | Pin 8 reaches every registered guest. |
| IchRuns.HalfWrittenRowIsHeard | system/utils/ich/ich_list.c:61-69 | While a row is being written, a pin is heard for nobody iff the word with its line has been written and the line is used. |
| IchRuns.PinsAreOwnIff | system/utils/ich/ich_list.c:53-57 | Every pin below 8 has at most one target iff at most four guests are registered. |
| IchRuns.FifthSharesPin | system/utils/ich/ich_list.c:16-70 | The tool finds row 4 for a fifth guest and registers it, and the first guest's serial pin then reaches both. |
| IchRuns.HalfDone | system/utils/ich/ich_list.c:61-69 | The sixteen words and then the first make the row. |
| IchDevice.IchCp.IchAssign | system/utils/ich/ich_list.c:16-70 | A registration adds the guest, or finds it there, or fails when the table is full. |
| IchDevice.IchCp.RemapAddr | src/dev/cellx/ich_cp.cc:127-166 | The two searches are the specification's; a selection out of range is normalised. |
| IchDevice.IchCp.RemapInterrupt | src/dev/cellx/ich_cp.cc:168-183 | All rows with a number for the line, in order. |
| IoApicSpec.EdgeReachesOwner | src/dev/cellx/i82094ax.cc:217-240 | A rising edge on an owned pin below 8 consults one entry of the owner's table, unchanged by whatever other guests wrote; while the pin is up nothing more is signalled. |
| IoApicSpec.ConsultedAtRisingEdges | src/dev/cellx/i82094ax.cc:313-327 | Over every mix of raises, lowers and guests' writes a pin's targets are consulted exactly at its rising edges. |
| IoApicSpec.PinsFollowEvents | src/dev/cellx/i82094ax.cc:313-327 | A pin is up iff the last event about it raised it. |
| IoApicSpec.OthersLeaveTable | src/dev/cellx/i82094ax.cc:137-189 | No access of another guest changes a guest's table or index. |
| IoApicSpec.AccessIsSafeIff | src/dev/cellx/i82094ax.cc:165-189 | A write stays in the table iff the index is not 0x40. |
| IoApicDevice.IoApic.WriteReg | src/dev/cellx/i82094ax.cc:165-189 | Writes the addressed word of the guest's entry. |
| IoApicDevice.IoApic.Write | src/dev/cellx/i82094ax.cc:137-154 | Index and window of the guest. |
| IoApicDevice.IoApic.RaiseInterruptPin | src/dev/cellx/i82094ax.cc:313-320 | Signals on the rising edge only. |
| IoApicDevice.IoApic.LowerInterruptPin | src/dev/cellx/i82094ax.cc:322-327 | The next raise of this pin is signalled to all its targets again; what a raise of any other pin signals is unchanged. |

## Left out

- DmaPortDevice.DmaPort.DmaActionTiming: the test for a DSid of -1 compares a 16-bit number with -1 and never fires, so no action is rejected.
- DmaPortProofs.EveryActionCompletesOnce: `pendingCount` and byte counts are unbounded; the 32-bit width is not modelled. Latencies only order events, so completion delays are not modelled.
- IdeDiskDevice.IdeDisk.Decode: command bytes are grouped by what they do (one constructor for all non-data commands); the IDENTIFY block is one sector of given bytes; the error and features registers are left out.
- DmaCoherence.RunsStayCoherent: premises are one disk on the channel, no software reset that reaches a disk during a transfer, and the start bit written only after a DMA command.
- DmaReset.StrayEventAfterReset: says what the first event after the reset does; where a continuation finds the disk moving data by PIO (after a further command) the model stops.
- IdeChannelDevice.Channel.AccessCommand: a channel has one disk; with the absent slave selected an access of one byte has no effect.
- DmaReadJob.ReadDmaDeliversSectors: PCI addresses are memory addresses, as CellX has them; during the command the host may use every register but the data register, which is dead then; it gives no other command and no reset, and does not stop the transfer (DmaAbort has that).
- AdaptorRuns.InterleavingsAreAtomic: a call names a control plane that is there; the crossbar's failure for one that is not is not modelled.
- BiosLoader.LoadBios: the loader runs alone, as one client of the adaptor; segment data is already in its memory.
- GuestSystem.System.StartupLDomain: kernel loading, command line, GDT, segment and model-specific registers are not modelled; sizes and offsets of 2 GB and more, which the source turns into negative numbers, are refused; there are fewer than 32 processors.
- PortProxy.Proxy.WriteBlob: an address outside guest memory is not modelled.
- BarProofs.StartupIsSound: the registers of one kind must fit below 4 GB, have no flag but their kind, and sizes that are multiples of 4 or 16; legacy registers, which ignore writes, are left out.
- BarRuns.RunsReachDevices: a register keeps the first address a guest gives it, not above the device's (BarRuns.RemapIsRightIff has the exact condition), and the ranges of one guest do not overlap; the value 0xFFFFFFFE, which moves the device, is not written.
- IchRuns.RunKeepsInv: registrations follow each other, and there are at most 20 of them: for a 21st the tool writes past the lines of its own record; `ich_irqmap` is left out.
- IchDevice.IchCp.IchAssign: the same bound on the number of guests.
- IoApicSpec.EdgeReachesOwner: the choice of local APICs for a message is left out; id and arbitration registers are shared by all guests.
- IohDevice.IoHubCp.ScanRows: row numbers are not cut to eight bits, which matters only to tables of 256 rows and more; there are 32.
- The IOHub statistics table, whose bound check underflows, is left out.
- Checkpointing, statistics, debug output and timing registers are left out.
- src/mem/tag_bridge.cc, src/dev/pcie, the crossbars, terminals, network devices, kernel modules other than access.c and the Python configuration are not part of this model.
- Functional accesses through the bridge and their label stacks rest on gem5's packets, which are not part of this model.
