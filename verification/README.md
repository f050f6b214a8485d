# VLAB interrupt-driven DMA: a verified model

This project models the VLAB system-on-chip and the firmware that drives its DMA engine: the burst engine, the
coalescing interrupt controller, the loopback UART with its two streams, SRAM and ROM, the timer, the bus decode, the
performance counters, the DMA and UART drivers and the bounded interrupt dispatcher. It proves what every run of that
closed system keeps: the driver's lifecycle stays coupled to the hardware, no completion is lost, the tick countdown
behaves as one atomic memmove at its last tick, the saturating streams are queues, and the counters count exactly
what software observes.

## How it is organised

Each component has two layers. A value (`DmaState`, `IntcState`, `UartState`, `SocState`, ...) with functions on it says
what an operation means, and a class with the program's own fields and steps is proved to do exactly that: every method
ends with `State() == F(old(State()))`. The value is more abstract than the class: busy/done/error flags, error code and
latch become one `Phase`; the three interrupt masks become sets of lines; FIFO arrays with lengths become byte
sequences. The theorems are about runs of those values, so they hold of every run of the classes.

| module | content |
|---|---|
| `Words`, `Platform`, `Regions`, `Bus` | 32-bit arithmetic, the VLAB tables, range rules, address decode |
| `MemoryModel`, `PerfModel`, `IntcModel`, `UartModel`, `TimerModel`, `DmaModel`, `SocModel` | the hardware |
| `Hal`, `DmaDriverModel`, `IsrModel`, `UartDriverModel` | the firmware |
| `Validators`, `VerdictTheorems`, `Timing` | the two validators, what they accept and which error they give, burst arithmetic |
| `Access`, `RegisterTheorems`, `BusMemoryTheorems` | what a bus access amounts to, the register map, the memories on the bus |
| `LifecycleTheorems`, `DispatchTheorems`, `CompletionTheorems`, `SystemRunTheorems`, `EndToEndTheorems` | the driver's lifecycle over every run |
| `TransferTheorems`, `AtomicTheorems`, `StreamTheorems`, `RoundTripTheorems`, `UartTheorems`, `DriverBytesTheorems` | data movement |
| `AccountingTheorems`, `IntcHistory`, `IntcRunTheorems`, `TimerTheorems`, `TimerRunTheorems`, `BootTheorems` | counters, interrupts, time, boot |

`dafny verify dfyconfig.toml` checks the whole project.

## Where code and documentation differ

The model follows the code. Each difference is a theorem or is visible in one.

- Writing CLEAR clears the ACTIVE bit, not PENDING (`soc_c/src/soc_intc.c:55-58`, against the DMA section of the SoC document):
  `IntcHistory.PendingStep`.
- A transfer that fails at completion leaves SRAM alone but may already have drained the RX stream
  (`soc_c/src/soc_dma.c:202-223`): `TransferTheorems.FailureIsHarmless` says exactly when the stream is unchanged.
- A timer enabled with a leftover VALUE resumes that count instead of LOAD (`soc_c/src/soc_timer.c:36-37`):
  `TimerTheorems.EnabledFromStopped`.
- The documented duration (in the DMA section of the SoC document) is computed in 32 bits and stored in an `int32_t`;
  `Timing.CountdownExact` gives the condition under which the two agree, in both directions.
- A UART latency of 2^31 or more becomes a negative count and the byte is lost (`soc_c/src/soc_uart.c:57-74`):
  `StreamTheorems.HugeLatencyLosesBytes`.
- The lifecycle can be broken by register accesses and by `dma_start`. `LifecycleTheorems.CouplingExact` says for every
  action in which states it keeps the coupling and in which it does not; `CompletionTheorems.RawAckLosesCompletion` and
  `EndToEndTheorems.StartBypassesLifecycle` show the price of two that do not, and `DispatchTheorems.TimerCanStarveDma`
  what the dispatch bound costs.
- Without capabilities installed on either side the two validators differ (`firmware/drivers/dma.c:62-99` against
  `soc_c/src/soc_dma.c:37-45`): `Validators.AgreementWithoutCaps` says on exactly which transfers they still agree.

## Model

| member | source | states |
|---|---|---|
| LifecycleTheorems.CouplingOverRuns | firmware/drivers/dma.c:143-206 | in every run of submits, ticks, dispatches, recovers, outside interrupts, fault latches and bus accesses other than START, IRQ_CLEAR and ACK: ACTIVE iff engine STATUS nonzero, finished and ACTIVE implies the interrupt is pending, done flag iff COMPLETE, error latch iff ERROR, STARTING and RECOVERY never visible |
| LifecycleTheorems.ActCouples | firmware/drivers/dma.c:143-206 | each single client action keeps that coupling |
| LifecycleTheorems.BootCouples | soc_c/src/soc.c:167-192 | booted hardware with a freshly initialised driver is coupled |
| LifecycleTheorems.SubmitEffect | firmware/drivers/dma.c:143-169 | with or without IRQ: a submit is accepted iff the driver is IDLE and the transfer is one VLAB accepts; then the driver is ACTIVE with clear latches and the engine busy with its countdown and the interrupt as asked for; a refused one changes only counters |
| LifecycleTheorems.RecoverEffect | firmware/drivers/dma.c:195-206 | from COMPLETE or ERROR, recover gives IDLE, an idle engine and a clear ACTIVE bit; otherwise it does nothing |
| LifecycleTheorems.IsrCouples | firmware/drivers/dma.c:179-193 | the handler alone re-establishes the coupling after its line was acknowledged, with the right outcome and latch |
| LifecycleTheorems.RoundsCouple | firmware/isr/isr.c:32-48 | a dispatch of any length keeps the coupling, whatever the polite foreign handlers do |
| LifecycleTheorems.PoliteRun | soc_c/src/soc.c:87-154 | any run of polite accesses and ticks keeps every pending bit and leaves a settled engine alone; a busy one counts down or ends and raises its line |
| LifecycleTheorems.TickCounts | soc_c/src/soc_dma.c:191-230 | a tick takes one off an unfrozen countdown or ends it in DONE or an address error, and raises iff asked |
| LifecycleTheorems.CouplingExact | firmware/drivers/dma.c:126-206 | for every action in every coupled state: the coupling is kept if and only if the action is safe there, by a condition on registers and lifecycle that can be read before the call |
| LifecycleTheorems.CouplingExactOverRuns | firmware/drivers/dma.c:126-206 | for every run of any actions: the coupling holds between all calls if and only if each action was safe in its state |
| LifecycleTheorems.AckExact | soc_c/src/soc_intc.c:36-46 | a raw ACK keeps the coupling iff it does not take the announced completion of an ACTIVE driver |
| LifecycleTheorems.IrqClearExact | soc_c/src/soc_dma.c:167-189 | a raw IRQ_CLEAR keeps it iff no ACTIVE driver has an outcome to lose |
| LifecycleTheorems.RawStartExact | soc_c/src/soc_dma.c:108-189 | a raw START keeps it iff the driver is ACTIVE and the START is ignored, asks for the interrupt or is refused |
| LifecycleTheorems.StartEffect | firmware/drivers/dma.c:126-135 | dma_start is accepted iff the engine is not busy and the transfer valid, and then the engine is busy with its countdown, whatever the lifecycle |
| LifecycleTheorems.StartExact | firmware/drivers/dma.c:126-135 | dma_start keeps the coupling iff it is refused, or the driver is ACTIVE and it asks for the interrupt |
| LifecycleTheorems.PolledExact | firmware/drivers/dma.c:143-169 | a submit without IRQ keeps it iff it is refused |
| LifecycleTheorems.ResetExact | soc_c/src/soc.c:75-80 | a reset of the devices keeps it iff the driver is not ACTIVE |
| CompletionTheorems.NoLostCompletion | firmware/drivers/dma.c:143-206 | from ACTIVE, through any disciplined run with dispatches anywhere in it and at least the remaining unfrozen ticks, then a dispatch with the line enabled: the first due dispatch completes with the engine's outcome, the driver ACTIVE until then; a recover after it gives IDLE, status 0, ACTIVE bit 2 clear, and the next submit is accepted iff valid and runs |
| CompletionTheorems.CompletesAtFirstDue | firmware/isr/isr.c:32-48 | the driver completes at precisely the first dispatch that finds the ticks used up and the line enabled, neither before nor later |
| CompletionTheorems.WaitingCounts | soc_c/src/soc_dma.c:191-197 | through any disciplined run, dispatches included, in which no dispatch is due, the driver stays ACTIVE and the engine has exactly the unfrozen ticks less to go |
| CompletionTheorems.DueDispatch | firmware/isr/isr.c:32-48 | a dispatch of a finished transfer with the line enabled gives COMPLETE for DONE, ERROR with the engine's code for a failure, and an idle engine |
| CompletionTheorems.EarlyDispatch | firmware/isr/isr.c:32-48 | a dispatch while the engine is busy, or with the line masked, leaves the driver ACTIVE and the engine's phase as it was |
| CompletionTheorems.DispatchCompletesIffEnabled | firmware/isr/isr.c:32-48 | a finished transfer is completed by a dispatch iff the DMA line is enabled |
| CompletionTheorems.RawAckLosesCompletion | soc_c/src/soc_intc.c:36-46 | after an unsafe ACK the driver stays ACTIVE in every disciplined run, with any number of dispatches, until the DMA line is raised from outside |
| CompletionTheorems.PolledSubmitStaysActive | firmware/drivers/dma.c:143-169 | after an accepted submit without IRQ, STATUS leaves BUSY after exactly the countdown of unfrozen ticks, but in no disciplined run, dispatches and recovers included, does the driver leave ACTIVE until the DMA line is raised from outside |
| CompletionTheorems.RaiseReportsPolled | firmware/isr/isr.c:32-48 | that raise and one dispatch with the line enabled report the outcome |
| EndToEndTheorems.SubmittedTransferArrives | firmware/drivers/dma.c:143-193 | an accepted submit, in any disciplined run with dispatches anywhere whose clients and handlers leave SRC, DST and LEN alone, stays ACTIVE to the documented tick and ends in COMPLETE, never ERROR; before that tick memory is as the bus accesses alone made it, at it the submitted bytes have moved |
| EndToEndTheorems.FirstTransferAfterBoot | soc_c/src/soc.c:167-192 | boot any machine, initialise the driver, configure three lines, register the DMA handler, submit any valid transfer, enable the line and let the documented ticks pass: the bytes have moved and the next dispatch reports COMPLETE |
| EndToEndTheorems.PolledTransferMoves | firmware/drivers/dma.c:143-169 | a submit without IRQ moves its bytes at its last tick, where STATUS turns from BUSY to DONE and nothing is raised |
| EndToEndTheorems.StartBypassesLifecycle | firmware/drivers/dma.c:126-135 | an accepted dma_start with IRQ from IDLE, its countdown through any machine run, and a dispatch report COMPLETE without any submit |
| EndToEndTheorems.ActiveTrace | firmware/drivers/dma.c:143-206 | while no dispatch is due, clients, driver, dispatcher and handlers together never rewrite the transfer and pass exactly the client's ticks |
| SystemRunTheorems.SystemRunsAreMachineRuns | firmware/isr/isr.c:32-48 | every run of clients, driver, dispatcher and handlers without a reset is a run of the machine under the accesses they make |
| Validators.ValidatorsAgree | firmware/drivers/dma.c:62-99 | for every region table, FIFO table or none, and capabilities, the driver's answer is the number that belongs to the engine's verdict |
| Validators.AgreementWithoutCaps | soc_c/src/soc_dma.c:37-45 | with no capabilities on either side they agree iff the transfer is empty, or aligned and either memory to memory or refused for an endpoint |
| Validators.VlabAccepts | firmware/platform/platform_vlab.c:11-36 | on VLAB both sides accept exactly 4..16384 aligned bytes, SRAM to SRAM, SRAM to uart-tx or uart-rx to SRAM |
| VerdictTheorems.VerdictMeaning | soc_c/src/soc_dma.c:108-159 | for all tables, exactly which transfers are accepted and which code each refused one gets, by its size, place and length, by whether its ends are mapped, and by whether an allowed direction connects memory and peripheral ends |
| VerdictTheorems.DriverMeaning | firmware/drivers/dma.c:62-99 | the driver's five answers by the same conditions |
| VerdictTheorems.ClassMeaning | soc_c/src/soc_dma.c:9-22 | an end is unmapped, memory, or a peripheral end of a role exactly if it lies outside everything, first in a memory region, or at a FIFO with that role (without FIFO table: first in a device region) |
| VerdictTheorems.SubmitAnswers | firmware/drivers/dma.c:143-169 | BUSY exactly while lifecycle or engine is busy, otherwise the number of the engine's verdict; accepted for any IRQ choice the driver is ACTIVE |
| Access.DriverPredictsEngine | soc_c/src/soc_dma.c:108-159 | programming an engine that is not busy: OK iff it goes busy with its countdown, otherwise the corresponding error code is latched |
| Access.ProgramStarts | firmware/drivers/dma.c:160-165 | the four register writes are one START of exactly that transfer, a refusal raising the line iff asked |
| Access.TwoStepClears | firmware/drivers/dma.c:179-206 | the two-step clear drops the terminal flags and ACTIVE bit 2 and nothing else |
| Access.ReadFrame | soc_c/src/soc.c:87-112 | a read changes only counters, the controller by an ACK, the UART's receive flag by RXDATA |
| Access.WriteFrame | soc_c/src/soc.c:114-143 | a write reaches only the device whose window holds the address; outside its own window the controller changes only by a START that is refused and asked for the interrupt; ROM never |
| RegisterTheorems.ReadsExactly | soc_c/src/soc.c:87-112 | a read succeeds exactly on aligned memory words and the registers that are not write-only; elsewhere the firmware gets 0 |
| RegisterTheorems.WritesExactly | soc_c/src/soc.c:114-143 | a write succeeds exactly on SRAM words and the registers that are not read-only, except TXDATA of a disabled UART; all else faults |
| RegisterTheorems.RefusedIsHarmless | soc_c/src/soc.c:114-143 | a write that is not OK leaves no trace but its counts |
| RegisterTheorems.UartAndTimerShow | firmware/include/soc_regs.h:39-48 | what each readable UART and timer register answers on the bus |
| RegisterTheorems.DmaShows | firmware/include/soc_regs.h:21-27 | what each readable engine register answers |
| RegisterTheorems.IntcShows | firmware/include/soc_regs.h:28-32 | ENABLE, PENDING and ACTIVE answer one bit a line |
| RegisterTheorems.PerfShows | firmware/include/soc_regs.h:33-38 | every counter answers its value, MEM_ACC counting its own read |
| RegisterTheorems.EnableTakesEffect | soc_c/src/soc_intc.c:52-54 | writing ENABLE enables exactly the lines whose bits are set, touches nothing else and reads back as the value modulo 8 |
| RegisterTheorems.EnabledLineIsReturned | soc_c/src/soc_intc.c:22-46 | a line enabled that way and then raised alone is what ACK answers |
| RegisterTheorems.ClearTakesEffect | soc_c/src/soc_intc.c:55-58 | CLEAR drops the ACTIVE bit of an implemented line and nothing else |
| RegisterTheorems.TimerTakesEffect | soc_c/src/soc_timer.c:29-52 | LOAD stores without touching the count, CTRL stores and starts, both status registers are cleared by a one and kept by a zero |
| RegisterTheorems.TimerReadsBack | soc_c/src/soc_timer.c:18-52 | what is written reads back; VALUE follows LOAD only on a fresh start |
| RegisterTheorems.UartTakesEffect | soc_c/src/soc_uart.c:57-74 | CTRL and BAUDDIV store and read back; TXDATA starts a transmission with the low byte, replacing one under way, or does nothing while disabled |
| RegisterTheorems.DmaTakesEffect | soc_c/src/soc_dma.c:167-189 | SRC, DST, LEN and CTRL store and read back, START not kept; IRQ_CLEAR drops a terminal flag and leaves a running transfer |
| RegisterTheorems.PerfTakesEffect | soc_c/src/soc_perf.c:53-67 | a counter is overwritten after the write itself was counted; CTRL enables by bit 0 and clears all counters by bit 1 |
| RegisterTheorems.MeasurementStarts | soc_c/src/soc_perf.c:53-67 | after CTRL := 3 the counters read zero, MEM_ACC the one read |
| RegisterTheorems.ResetRestores | soc_c/src/soc.c:75-80 | a device reset brings every register to its reset value, streams empty, nothing frozen; configuration, memories, counters and time stay |
| RegisterTheorems.BootRestores | soc_c/src/soc.c:167-192 | so does boot, with counting enabled and five cycles counted |
| RegisterTheorems.NewMachine | soc_c/src/soc.c:36-73 | a new machine is at its reset values with the configured timing, 0 counting as 1 |
| BusMemoryTheorems.StoreLoads | soc_c/src/soc_memory.c:33-53 | a word written to SRAM on the bus reads back, every other word of SRAM and ROM keeps its bus value |
| BusMemoryTheorems.RomKeeps | soc_c/src/soc_memory.c:43-53 | a write to ROM faults and no word changes |
| BusMemoryTheorems.MemoryShows | soc_c/src/soc_memory.c:33-41 | a memory word on the bus is its four bytes, least significant first |
| BusMemoryTheorems.ReadsLastWritten | soc_c/src/soc.c:87-143 | in every run in which the engine completes nothing, an SRAM word reads as the value last written to it |
| BusMemoryTheorems.WordsAreStreamed | soc_c/src/soc.c:25-34 | a transfer to uart-tx streams the words software reads, least significant byte first |
| BusMemoryTheorems.BootedMemory | soc_c/src/soc.c:179-183 | after boot ROM reads the image, zeros behind it, or what it had without an image; SRAM reads zero |
| TransferTheorems.ExactTiming | soc_c/src/soc_dma.c:160-164 | k unfrozen ticks after an accepted START the engine is busy with total - k, through any operations at all, and the total-th ends it |
| TransferTheorems.TicksToTerminal | soc_c/src/soc_dma.c:160-197 | STATUS shows DONE or ERROR at tick k iff k is the documented duration |
| TransferTheorems.CountdownOverRun | soc_c/src/soc_dma.c:191-197 | while busy, remaining is the initial count minus the unfrozen ticks |
| TransferTheorems.BusyStep | soc_c/src/soc_dma.c:108-116 | START, IRQ_CLEAR, register rewrites and fault latches do not move a busy engine |
| TransferTheorems.FrozenEngineWaits | soc_c/src/soc_dma.c:191-195 | the fault latch freezes a transfer through any number of ticks; released, it goes on with the ticks it had |
| TransferTheorems.StartOutcome | soc_c/src/soc_dma.c:108-189 | a raw START ends refused with the verdict, or busy with the countdown, and CTRL does not keep START |
| TransferTheorems.EngineOverRuns | soc_c/src/soc_dma.c:79-189 | over every run at most one STATUS flag, ERR_CODE nonzero iff ERROR, busy implies ticks left, CTRL without START |
| TransferTheorems.LatchedIrq | soc_c/src/soc_dma.c:112-119 | a busy engine holds the IRQ_ENABLE of the START that began its transfer |
| TransferTheorems.TerminalRaisesIffAsked | soc_c/src/soc_dma.c:99-106 | the operation that ends a transfer raises the line iff IRQ_ENABLE was given at its START, whatever CTRL holds since |
| TransferTheorems.AcceptedCompletes | soc_c/src/soc_dma.c:202-230 | an accepted VLAB transfer cannot fail: SRAM becomes the memmove of its contents, or exactly those bytes are exchanged with a stream |
| TransferTheorems.FailureIsHarmless | soc_c/src/soc_dma.c:202-223 | a completion fails iff an end that is not a stream lies outside SRAM, then with code 1, SRAM and DMA_BYTES unchanged, the RX stream drained exactly if it was the source |
| TransferTheorems.FailsOutsideSram | soc_c/src/soc.c:14-34 | in numbers: a completion fails iff LEN is 0 or out of SRAM at an end that is not a stream |
| TransferTheorems.FailingStepKeepsMemory | soc_c/src/soc_dma.c:99-159 | every failure, at START or at completion, leaves SRAM and DMA_BYTES alone |
| TransferTheorems.EngineWrite | soc_c/src/soc_dma.c:167-189 | a bus write changes the engine exactly as its own register write, or not at all |
| AtomicTheorems.NothingMovesEarly | soc_c/src/soc_dma.c:191-197 | before its last tick a transfer has moved no byte: SRAM and UART are as if the CPU ran alone |
| AtomicTheorems.TransferIsAtomic | soc_c/src/soc_dma.c:191-230 | the countdown refines an atomic transfer at its last tick, for every overlap, whatever else runs, if its registers are left alone |
| StreamTheorems.StreamsAreQueues | soc_c/src/soc_uart.c:93-126 | TX is the first 16384 bytes ever handed over, both streams stay within 16384, and while RX never overflowed, taken bytes followed by queued ones are all bytes handed over |
| StreamTheorems.StreamStep | soc_c/src/soc_uart.c:43-126 | each operation appends what it hands over, saturating, and removes the prefix it takes |
| StreamTheorems.DrainDelivers | soc_c/src/soc_uart.c:116-126 | a drain gives the oldest bytes, then zeros, always the requested number |
| StreamTheorems.DriverBytesArriveInOrder | firmware/drivers/uart.c:13-25 | transmitted bytes followed by the one in flight are the bytes the driver accepted, none lost, doubled or reordered |
| StreamTheorems.HugeLatencyLosesBytes | soc_c/src/soc_uart.c:57-74 | from latency 2^31 on the accepted byte is never transmitted |
| RoundTripTheorems.UartRun | soc_c/src/soc.c:87-154 | every run of the machine is, for the UART, the run of its own operations and the engine's drains and appends |
| RoundTripTheorems.SocStreamsAreQueues | soc_c/src/soc_uart.c:93-126 | the queue laws hold in every run of the whole machine |
| RoundTripTheorems.DmaRoundTrip | soc_c/src/soc.c:14-34 | n bytes sent to uart-tx and n taken from uart-rx give the first n of old RX queue followed by payload, even past an overflow, and leave the rest of the saturated queue; with an empty queue the destination equals the source |
| RoundTripTheorems.WellFormedStep | soc_c/src/soc.c:36-73 | tables, sizes and write protection survive every operation |
| UartTheorems.WriteByteMeaning | firmware/drivers/uart.c:13-25 | one accepted TXDATA write or nothing but counters: DISABLED iff disabled, TIMEOUT iff a byte is in flight |
| UartTheorems.WriteByteCost | firmware/drivers/uart.c:13-25 | one bus access while disabled, three for an accepted byte, 1001 before a timeout |
| UartTheorems.ReadByteMeaning | firmware/drivers/uart.c:27-33 | nothing, and nothing changed, exactly while no byte was received; otherwise the byte, once |
| UartTheorems.FrozenWaits | soc_c/src/soc_uart.c:76-91 | a frozen transmitter keeps its byte and its count through any number of ticks |
| UartTheorems.Loopback | firmware/drivers/uart.c:13-33 | after exactly the latency the driver reads back the byte it sent |
| DriverBytesTheorems.SocBytesArriveInOrder | firmware/drivers/uart.c:13-25 | in every run of the machine where only the driver writes TXDATA and no DMA targets uart-tx, bytes leave once each and in order |
| DriverBytesTheorems.TxRecordIsSent | soc_c/src/soc_uart.c:76-114 | in such runs the machine's TX record is the old one followed by the accepted bytes, short of the one in flight, up to 16384 |
| DispatchTheorems.DispatchDrains | firmware/isr/isr.c:32-48 | with handlers that raise and mask nothing and clear at most their own line, one dispatch services exactly the pending-and-enabled set in order TIMER, DMA, UART, answers its size, leaves none of it pending or active and all other bits alone |
| DispatchTheorems.DispatchEffect | firmware/isr/isr.c:32-48 | for driver and engine in any state: the outcome is latched and the flags cleared iff the DMA line was pending and enabled, a busy engine runs on, otherwise neither is touched |
| DispatchTheorems.ReportsIffWired | firmware/isr/isr.c:32-48 | a dispatch with the DMA line due reports a finished transfer to an ACTIVE driver iff at least three lines are configured and the DMA line has its handler |
| DispatchTheorems.UnwiredDiscards | firmware/isr/isr.c:37-39 | without that the driver hears nothing, and the pending DMA bit survives iff one line is configured and TIMER is due |
| DispatchTheorems.RegisterStores | firmware/isr/isr.c:26-30 | a registration stores the handler of any configured line and no other; beyond the count it is ignored |
| DispatchTheorems.ConfigureEmpties | firmware/isr/isr.c:19-24 | 1 to 8 lines take effect and empty every vector, anything else is ignored |
| DispatchTheorems.SetUpWires | firmware/isr/isr.c:19-30 | configuring n lines and registering the DMA handler wires the dispatcher iff n >= 3 |
| DispatchTheorems.SetUpReports | firmware/isr/isr.c:19-48 | set up this way, a due dispatch reports a finished transfer iff n >= 3 |
| DispatchTheorems.IsrEffect | firmware/drivers/dma.c:179-193 | DONE gives COMPLETE, a failure ERROR with its code, anything else only the count; flags and ACTIVE bit cleared |
| DispatchTheorems.DispatchIsBounded | firmware/isr/isr.c:35-39 | the lines a dispatch specifies are at most its rounds and all below the configured count; that the loop itself keeps to it is IsrModel.Dispatcher.DispatchAll |
| DispatchTheorems.DmaWaitsIffTimerTakesAll | firmware/isr/isr.c:35-37 | with the DMA line due and a TIMER handler that neither acknowledges nor masks, a dispatch misses DMA iff every round of it serviced TIMER |
| DispatchTheorems.DmaMissedIffTimerReraises | firmware/isr/isr.c:35-37 | with a TIMER handler that always or never raises its line and at least two rounds, a due DMA line is missed iff TIMER is due and its handler raises it |
| DispatchTheorems.TimerCanStarveDma | firmware/isr/isr.c:35-37 | any TIMER handler that always leaves its own line pending takes every round and the due DMA line waits |
| DispatchTheorems.ServiceClears | firmware/isr/isr.c:38-46 | servicing a line ends with its ACTIVE bit clear and the rest of the controller unchanged |
| IntcHistory.PendingIsRaisedSinceAck | soc_c/src/soc_intc.c:18-65 | pending iff raised since the last ACK that returned the line; ACKs plus the pending bit never exceed raises |
| IntcHistory.PendingStep | soc_c/src/soc_intc.c:52-65 | only a raise sets a pending bit and only the ACK of that line clears it |
| IntcHistory.AckReturnsHighest | soc_c/src/soc_intc.c:22-46 | ACK answers "none" iff nothing enabled is pending, else the highest line, moved to active; a second ACK does not repeat it |
| IntcRunTheorems.IntcRun | soc_c/src/soc.c:87-154 | every run of the machine is, for the controller, the run of the raises and accesses it causes |
| IntcRunTheorems.SocInterruptsConserved | soc_c/src/soc_intc.c:18-65 | interrupt conservation in every run of the machine |
| AccountingTheorems.CountersAreExact | soc_c/src/soc_perf.c:21-39 | over every run that does not write the counters: CYCLES ticks, MEM_ACC aligned accesses, STALLS accesses not answering OK plus STARTs while busy, DMA_BYTES completed lengths, IRQ_COUNT valid ACKs, modulo 2^32, and nothing while disabled |
| AccountingTheorems.CountersRead | soc_c/src/soc_perf.c:41-51 | what software reads from each counter after such a run: its old value plus the observed total modulo 2^32 |
| AccountingTheorems.StepCounts | soc_c/src/soc.c:87-154 | the same for each single operation, judged by its result |
| TimerTheorems.PeriodicForm | soc_c/src/soc_timer.c:54-67 | first expiry after the count left over, then one every LOAD ticks, with the VALUE in between |
| TimerTheorems.OneShotForm | soc_c/src/soc_timer.c:54-67 | exactly one expiry, then disabled and at zero for good |
| TimerTheorems.EnabledFromStopped | soc_c/src/soc_timer.c:29-52 | first expiry at VALUE if nonzero, else at LOAD; from 0 periodic gives n / LOAD expiries and VALUE LOAD - n mod LOAD |
| TimerTheorems.ZeroLoadNeverFires | soc_c/src/soc_timer.c:54-67 | with LOAD 0 nothing ever happens |
| TimerRunTheorems.SocTimer | soc_c/src/soc.c:145-154 | in every run of the machine that leaves its registers alone, the timer is the closed form of the ticks in the run |
| TimerRunTheorems.SocTimerRaises | soc_c/src/soc_timer.c:54-67 | in such runs, ACKs included, line 1 is raised exactly once per expiry if the timer asks for interrupts |
| TimerRunTheorems.ExpiriesCoalesce | soc_c/src/soc_intc.c:18-20 | without an ACK line 1 is pending afterwards iff it was before or the timer expired at least once, however often |
| TimerRunTheorems.PeriodicInterrupts | soc_c/src/soc_timer.c:54-67 | a periodic timer at VALUE = LOAD: after n ticks VALUE is LOAD - n mod LOAD, n / LOAD interrupts were raised and its ACKs never outnumber them |
| BootTheorems.BootResult | soc_c/src/soc.c:167-192 | the machine after boot: reset values, zero SRAM, the image in ROM, five ticks, only CYCLES counted |
| BootTheorems.BootForgets | soc_c/src/soc.c:167-192 | booting the same image makes two machines of the same configuration equal, whatever happened before |
| Timing.CountdownExact | soc_c/src/soc_dma.c:160-164 | for every nonzero length the 32-bit countdown is the documented duration iff the arithmetic fits |
| Timing.LongerBurstsNoSlower | docs/dma-optimization.md:26-28 | duration does not grow with the burst size |
| Timing.TickBounds | docs/dma-optimization.md:26-28 | between words*latency and words*(latency+1)-1, the lower bound iff the burst covers the words |
| Timing.FasterThanCpuCopy | docs/dma-optimization.md:20-28 | at latency 1 strictly below the three ticks a word of the CPU copy |
| Bus.DecodeIsOwnership | soc_c/src/bus.c:9-25 | on any disjoint word-aligned table the two-pass decode answers the one owner of an aligned address, -1 iff there is none, up to the top of the address space |
| Bus.VlabDecode | firmware/platform/platform_vlab.c:11-36 | on the VLAB table it answers the window of the address |
| Bus.Decode | soc_c/src/bus.c:9-25 | the two search loops compute that route |
| Regions.OverlapMeansSharedAddress | firmware/include/mem_regions.h:57-64 | ranges overlap iff some address lies in both |
| Regions.ContainsMeansEveryAddress | firmware/include/mem_regions.h:38-45 | a region contains a range iff the range is not empty and each of its addresses exists and is the region's |
| Regions.SearchRegion | firmware/include/mem_regions.h:66-75 | the first region holding the whole range, -1 iff none does |
| Regions.SearchPeriph | firmware/include/dma_caps.h:64-72 | the first FIFO anchored at the address, -1 iff none or no table |
| Words.PackUnpack | soc_c/src/soc_memory.c:33-53 | little-endian packing and unpacking are inverse both ways |
| MemoryModel.WordRoundTrip | soc_c/src/soc_memory.c:33-53 | a stored word reads back and every other aligned word keeps its value |
| MemoryModel.Memory.constructor | soc_c/src/soc_memory.c:5-13 | a zeroed bank of the given base, size and protection |
| MemoryModel.Memory.Offset | soc_c/src/soc_memory.c:22-31 | the offset iff the range is non-empty, does not wrap and lies inside |
| MemoryModel.Memory.LoadWord | soc_c/src/soc_memory.c:33-41 | the little-endian word, None iff unaligned or outside |
| MemoryModel.Memory.PutWord | soc_c/src/soc_memory.c:43-53 | exactly the four bytes of the word are replaced, little-endian |
| MemoryModel.Memory.StoreWord | soc_c/src/soc_memory.c:43-53 | four bytes replaced, or a fault and nothing changed |
| MemoryModel.Memory.CopyOut | soc_c/src/soc_memory.c:55-61 | the bytes of the range, fault iff it is not inside |
| MemoryModel.Memory.CopyIn | soc_c/src/soc_memory.c:63-70 | the range replaced by the payload, or a fault and nothing changed |
| MemoryModel.Memory.Load | soc_c/src/soc_memory.c:72-85 | as many words as fit, from the base on; OK iff all fit |
| MemoryModel.Memory.Zero | soc_c/src/soc_memory.c:87-89 | all bytes zero |
| PerfModel.CountTwice | soc_c/src/soc_perf.c:21-39 | counting two events one after the other is counting their sum |
| PerfModel.Perf.constructor | soc_c/src/soc_perf.c:5-11 | all zero and disabled |
| PerfModel.Perf.ResetCounters | soc_c/src/soc_perf.c:13-19 | counters zero, enable and CTRL kept |
| PerfModel.Perf.Tick | soc_c/src/soc_perf.c:21-23 | one cycle modulo 2^32 if enabled |
| PerfModel.Perf.CountMem | soc_c/src/soc_perf.c:25-27 | one access if enabled |
| PerfModel.Perf.CountStall | soc_c/src/soc_perf.c:29-31 | n stalls if enabled |
| PerfModel.Perf.CountDma | soc_c/src/soc_perf.c:33-35 | n bytes if enabled |
| PerfModel.Perf.CountIrq | soc_c/src/soc_perf.c:37-39 | one interrupt if enabled |
| PerfModel.Perf.Read | soc_c/src/soc_perf.c:41-51 | the counter at the offset, None for any other |
| PerfModel.Perf.Write | soc_c/src/soc_perf.c:53-67 | counters overwritten, CTRL enabling and clearing, fault elsewhere |
| IntcModel.Highest | soc_c/src/soc_intc.c:22-29 | None iff nothing gated, otherwise a gated line of least rank in TIMER, DMA, UART |
| IntcModel.MaskOfLines | soc_c/src/soc_intc.c:31-50 | register masks and line sets determine each other |
| IntcModel.Intc.constructor | soc_c/src/soc_intc.c:5-10 | no line enabled, pending or active |
| IntcModel.Intc.Reset | soc_c/src/soc_intc.c:12-16 | the same after a reset |
| IntcModel.Intc.RaiseLine | soc_c/src/soc_intc.c:18-20 | the line becomes pending; out-of-range lines are ignored |
| IntcModel.Intc.HighestLine | soc_c/src/soc_intc.c:22-29 | the scan over the masks finds that line |
| IntcModel.Intc.Read | soc_c/src/soc_intc.c:31-50 | registers, and ACK moving the highest line to active and counting it |
| IntcModel.Intc.Write | soc_c/src/soc_intc.c:52-65 | ENABLE masked to three lines, CLEAR dropping ACTIVE only, fault elsewhere |
| UartModel.Uart.constructor | soc_c/src/soc_uart.c:5-19 | idle with empty streams |
| UartModel.Uart.Reset | soc_c/src/soc_uart.c:21-31 | the same, keeping the latency |
| UartModel.Uart.Read | soc_c/src/soc_uart.c:43-55 | registers; RXDATA drops the receive flag; TXDATA faults |
| UartModel.Uart.Write | soc_c/src/soc_uart.c:57-74 | TXDATA starts a transmission or answers DISABLED and counts a stall |
| UartModel.Uart.Step | soc_c/src/soc_uart.c:76-91 | countdown; at its end the byte loops back, enters both streams and raises line 0 |
| UartModel.Uart.Store | soc_c/src/soc_uart.c:93-114 | a buffer after the append is the saturated concatenation |
| UartModel.Uart.DmaTxAppend | soc_c/src/soc_uart.c:93-114 | both streams extended, each saturating by itself |
| UartModel.Uart.DmaRxDrain | soc_c/src/soc_uart.c:116-126 | the queue prefix delivered and removed, the rest of the request zero |
| TimerModel.Timer.constructor | soc_c/src/soc_timer.c:3-9 | everything zero |
| TimerModel.Timer.Reset | soc_c/src/soc_timer.c:11-16 | everything zero |
| TimerModel.Timer.Read | soc_c/src/soc_timer.c:18-27 | the register at the offset |
| TimerModel.Timer.Write | soc_c/src/soc_timer.c:29-52 | enabling from stopped reloads only at VALUE 0; status is write-one-to-clear |
| TimerModel.Timer.Step | soc_c/src/soc_timer.c:54-67 | countdown, reload or disable at expiry, raise iff enabled |
| DmaModel.DmaEngine.constructor | soc_c/src/soc_dma.c:24-63 | idle, with latency and burst at least 1, and default capabilities when none are given |
| DmaModel.DmaEngine.Reset | soc_c/src/soc_dma.c:65-77 | idle, registers zero, not frozen |
| DmaModel.DmaEngine.Read | soc_c/src/soc_dma.c:79-97 | registers; STATUS shows the phase |
| DmaModel.DmaEngine.Classify | soc_c/src/soc_dma.c:9-22 | the endpoint class, strict with a FIFO table, by region without |
| DmaModel.DmaEngine.Fail | soc_c/src/soc_dma.c:99-106 | ERROR with the code, raising iff latched |
| DmaModel.DmaEngine.CheckEndpoints | soc_c/src/soc_dma.c:134-159 | unmapped before incapable, then FIFO roles, then direction |
| DmaModel.DmaEngine.Admit | soc_c/src/soc_dma.c:122-159 | the checks in their order give the verdict |
| DmaModel.DmaEngine.LoadCountdown | soc_c/src/soc_dma.c:160-164 | the countdown in 32-bit arithmetic, at least 1 |
| DmaModel.DmaEngine.Start | soc_c/src/soc_dma.c:108-165 | ignored while busy with a stall counted; otherwise busy or failed, raising iff it fails and was asked |
| DmaModel.DmaEngine.Write | soc_c/src/soc_dma.c:167-189 | register writes; START auto-clears; IRQ_CLEAR drops the flags but not a running transfer |
| DmaModel.DmaEngine.ReadBridge | soc_c/src/soc.c:14-23 | RX stream at its FIFO address, SRAM elsewhere |
| DmaModel.DmaEngine.WriteBridge | soc_c/src/soc.c:25-34 | streams at the TX FIFO address, SRAM elsewhere |
| DmaModel.DmaEngine.Transfer | soc_c/src/soc_dma.c:198-230 | fetch, deliver, DONE with bytes counted, or an address error |
| DmaModel.DmaEngine.Step | soc_c/src/soc_dma.c:191-230 | idle or frozen: nothing; counting down; or the transfer |
| SocModel.Soc.constructor | soc_c/src/soc.c:36-73 | the VLAB machine at its initial values, every device wired to the same controller and counters |
| SocModel.Soc.ResetPeripherals | soc_c/src/soc.c:75-80 | devices and controller reset, memories and counters kept |
| SocModel.Soc.Read | soc_c/src/soc.c:87-112 | decode, device, access and stall counts |
| SocModel.Soc.WriteDevice | soc_c/src/soc.c:122-137 | the addressed device alone takes the write |
| SocModel.Soc.Write | soc_c/src/soc.c:114-143 | the same for writes; DISABLED passes through |
| SocModel.Soc.StepDevices | soc_c/src/soc.c:145-154 | the counters, the UART and the timer of a tick |
| SocModel.Soc.StepOnce | soc_c/src/soc.c:145-154 | UART, timer, then engine in one tick, sharing the controller |
| SocModel.Soc.StepMany | soc_c/src/soc.c:145-154 | n ticks |
| SocModel.Soc.RunUntil | soc_c/src/soc.c:156-165 | the number of ticks after which the predicate first holds, as an int32_t; -1 with all ticks spent if it never does |
| SocModel.Soc.Perform | soc_c/src/soc.c:87-154 | each operation of the run alphabet is what the classes do |
| SocModel.Soc.LoadMemories | soc_c/src/soc.c:167-192 | ROM cleared and loaded only if there is an image, SRAM cleared |
| SocModel.Soc.Clear | soc_c/src/soc.c:167-192 | the machine at the start of boot, before its ticks |
| SocModel.Soc.Boot | soc_c/src/soc.c:167-184 | reset, counters on, image loaded, SRAM cleared, five ticks |
| Hal.ReadReg | soc_c/src/host_bridge.c:31-36 | the bus value, 0 on a fault |
| Hal.WriteReg | soc_c/src/host_bridge.c:38-41 | the bus write, its status dropped |
| DmaDriverModel.DmaDriver.constructor | firmware/drivers/dma.c:19-31 | IDLE, latches zero, no tables installed |
| DmaDriverModel.DmaDriver.Init | firmware/drivers/dma.c:101-105 | the VLAB tables installed, lifecycle untouched |
| DmaDriverModel.DmaDriver.Configure | firmware/drivers/dma.c:107-119 | map and capabilities replaced where given, the FIFO table untouched |
| DmaDriverModel.DmaDriver.ConfigurePeriph | firmware/drivers/dma.c:121-124 | the FIFO table replaced, map and capabilities kept |
| DmaDriverModel.DmaDriver.ClassifyEndpoint | firmware/drivers/dma.c:41-53 | the endpoint's kind |
| DmaDriverModel.DmaDriver.RegionType | firmware/include/dma_caps.h:85-94 | the region-based class, -1 when unmapped |
| DmaDriverModel.DmaDriver.ValidateEndpoints | firmware/drivers/dma.c:75-98 | unmapped, incapable, roles and direction in this order; by region without a FIFO table |
| DmaDriverModel.DmaDriver.ValidateTransfer | firmware/drivers/dma.c:62-99 | BUSY by STATUS, then the checks in their order |
| DmaDriverModel.DmaDriver.ProgramTransfer | firmware/drivers/dma.c:158-162 | SRC, DST, LEN, then CTRL with START |
| DmaDriverModel.DmaDriver.Start | firmware/drivers/dma.c:126-135 | validate and program, no lifecycle |
| DmaDriverModel.DmaDriver.SubmitTransfer | firmware/drivers/dma.c:143-169 | BUSY unless IDLE; ACTIVE iff accepted; lifecycle back to IDLE when refused |
| DmaDriverModel.DmaDriver.Clear | firmware/drivers/dma.c:179-206 | DMA flags, then the controller's line |
| DmaDriverModel.DmaDriver.LatchOutcome | firmware/drivers/dma.c:179-193 | COMPLETE with the done flag, ERROR with the code, or nothing |
| DmaDriverModel.DmaDriver.ServiceIrq | firmware/drivers/dma.c:179-193 | sample, latch, two-step clear, count |
| DmaDriverModel.DmaDriver.RecoverIdle | firmware/drivers/dma.c:195-206 | from COMPLETE or ERROR clear and go IDLE |
| IsrModel.Dispatcher.constructor | firmware/isr/isr.c:15-17 | three lines, no handlers, nothing dispatched |
| IsrModel.Dispatcher.Configure | firmware/isr/isr.c:19-24 | 1 to 8 lines with an empty table; any other number ignored |
| IsrModel.Dispatcher.Register | firmware/isr/isr.c:26-30 | the vector of a configured line set |
| IsrModel.Dispatcher.Invoke | firmware/isr/isr.c:40-41 | the line's handler, if there is one |
| IsrModel.Dispatcher.ServiceLine | firmware/isr/isr.c:40-45 | handle, CLEAR, count |
| IsrModel.Dispatcher.RunRound | firmware/isr/isr.c:37-47 | acknowledge, handle, CLEAR, count; or stop |
| IsrModel.Dispatcher.DispatchAll | firmware/isr/isr.c:32-48 | rounds until none answers, at most one per configured line; the number handled |
| UartDriverModel.SendByte | firmware/drivers/uart.c:13-25 | at most 1000 status polls, then one TXDATA write or the error |
| UartDriverModel.ReceiveByte | firmware/drivers/uart.c:27-33 | the received byte, nothing without the receive flag |

## Left out

- Demo application, benchmarks and all printing: output only.
- The scripted core (`soc_c/src/soc_cpu.c`), `platform_init.c` and the conversion of ticks to nanoseconds: no part in data movement or interrupts.
- `volatile`, the HAL bit helpers and the global host bridge: registers are accessed by direct calls into the SoC object.
- `hal_irq_disable`/`hal_irq_restore` as concurrency: the host does not preempt, so submit, recover and the handler are atomic actions of a run.
- Failing allocation and NULL reader, writer, controller or counter pointers: the integrated SoC never passes them.
- The `vlab_test_*` hooks: they write engine fields directly; the fault latches they set are operations of the model.
- `dma_address_valid`, the region permissions and names, and the capability flags for interrupts and cancellation: no modelled code consults them.
- Thin wrappers (`uart_init`, the timer and controller drivers): one or two register writes each.
- SocModel.Soc.constructor: the configuration is given; the default one for a NULL argument (`soc_config_default`) and the scripted core are not built.
- SocModel.Soc.Boot: the core's stack pointer and the returned boot information are not modelled, because nothing on the bus depends on them.
- SocModel.Soc.RunUntil: the predicate is a function of the machine's state, so bus accesses a predicate makes itself, and what they count, are not modelled; a NULL predicate is the constant false.
- IsrModel.Dispatcher.Invoke: a foreign handler is a function from the machine it finds to the operations it performs; it has no private state and calls neither the DMA driver nor `isr_configure` or `isr_register`.
- DispatchTheorems.DispatchIsBounded: the line count is fixed during a dispatch; a handler that reconfigures it is not modelled.
- The value a faulting bus read leaves in its out parameter: the model answers None, and the HAL gives 0 as the host bridge does.
- LifecycleTheorems.CouplingOverRuns: is for clients that issue no raw START, IRQ_CLEAR or ACK, no submit without IRQ and no reset (LifecycleTheorems.CouplingExactOverRuns covers all of them), on a dispatcher with at least three lines and the DMA handler on its line; DispatchTheorems.UnwiredDiscards and DispatchTheorems.ReportsIffWired say what happens on any other.
- Validators.ValidatorsAgree: is about both sides holding the same tables; different tables on the two sides appear only in the methods' own contracts.
- The engine's `remaining` and interrupt latch after a transfer has ended: no register shows them, and the abstract phase drops them.
