/** The countdown is invisible until its last tick, which performs the whole transfer at once. */
module AtomicTheorems {
  import opened Words
  import opened Platform
  import opened Bus
  import opened MemoryModel
  import opened UartModel
  import opened DmaModel
  import opened SocModel
  import opened Validators
  import opened Access
  import opened LifecycleTheorems
  import opened TransferTheorems
  import opened StreamTheorems
  import opened RoundTripTheorems

  /** SRAM after an operation of the CPU alone. */
  function CpuMemory(m: Bank, op: Op): Bank {
    if op.Wr? && VlabWindow(op.addr) == 1 then
      var w := MemoryModel.WriteWord(m, op.addr, op.value);
      if w.Some? then w.value else m
    else m
  }

  /** SRAM and UART after a run, without any DMA. */
  function CpuRun(m: Bank, u: UartState, ops: seq<Op>): (Bank, UartState)
    decreases |ops|
  {
    if ops == [] then (m, u)
    else
      var (m', u') := CpuRun(m, u, ops[..|ops| - 1]);
      (CpuMemory(m', ops[|ops| - 1]), DoAll(u', CpuUart(ops[|ops| - 1])))
  }

  lemma QuietEngine(s: SocState, op: Op)
    requires WellFormed(s) && !(op.Step? && Completing(s))
    ensures var t := Exec(s, op);
            (t.sram, t.uart) == (CpuMemory(s.sram, op), DoAll(s.uart, CpuUart(op)))
  {
    UartStep(s, op);
    match op
    case Step => QuietTick(s);
    case Rd(addr) => ReadFrame(s, addr);
    case Wr(addr, v) => QuietWrite(s, addr, v);
    case _ =>
  }

  lemma QuietTick(s: SocState)
    requires !Completing(s)
    ensures Tick(s).sram == s.sram
  {
    hide UartTick, TimerModel.TimerTick, PerfModel.Count;
  }

  lemma QuietWrite(s: SocState, addr: u32, v: u32)
    ensures BusWrite(s, addr, v).0.sram == CpuMemory(s.sram, Wr(addr, v))
  {
    hide WriteBytes, UnpackWord;
    if addr % 4 == 0 && VlabWindow(addr) == 1 {
      VlabDecode(addr);
    } else {
      hide BusWrite;
      WriteFrame(s, addr, v);
    }
  }

  /** Before its last tick a transfer has moved nothing: SRAM and UART are as if the CPU ran alone. */
  lemma {:induction false} NothingMovesEarly(s: SocState, ops: seq<Op>)
    requires WellFormed(s) && s.dma.phase.Busy? && UnfrozenTicks(s, ops) < s.dma.phase.remaining
    ensures var t := Run(s, ops);
            WellFormed(t) && (t.sram, t.uart) == CpuRun(s.sram, s.uart, ops)
    decreases |ops|
  {
    hide Exec, CpuMemory, CpuUart;
    if ops != [] {
      var init, last := ops[..|ops| - 1], ops[|ops| - 1];
      NothingMovesEarly(s, init);
      CountdownOverRun(s, init);
      QuietEngine(Run(s, init), last);
      WellFormedStep(Run(s, init), last);
    }
  }

  /** The operation does not rewrite the transfer's registers. */
  predicate KeepsTransfer(op: Op) {
    !(op.Wr? && (op.addr == DMA_SRC || op.addr == DMA_DST || op.addr == DMA_LEN))
  }

  predicate SameTransfer(d: DmaState, e: DmaState) {
    d.src == e.src && d.dst == e.dst && d.len == e.len
  }

  lemma KeepsTransferStep(s: SocState, op: Op)
    requires KeepsTransfer(op)
    ensures SameTransfer(s.dma, Exec(s, op).dma)
  {
    match op
    case Step => TickCounts(s);
    case Rd(addr) => ReadFrame(s, addr);
    case Wr(addr, v) => KeepsTransferWrite(s, addr, v);
    case _ =>
  }

  lemma KeepsTransferWrite(s: SocState, addr: u32, v: u32)
    requires KeepsTransfer(Wr(addr, v))
    ensures SameTransfer(s.dma, BusWrite(s, addr, v).0.dma)
  {
    hide BusWrite, Verdict, Countdown;
    EngineWrite(s, addr, v);
  }

  lemma {:induction false} KeepsTransferRun(s: SocState, ops: seq<Op>)
    requires forall i :: 0 <= i < |ops| ==> KeepsTransfer(ops[i])
    ensures SameTransfer(s.dma, Run(s, ops).dma)
    decreases |ops|
  {
    hide Exec;
    if ops != [] {
      KeepsTransferRun(s, ops[..|ops| - 1]);
      KeepsTransferStep(Run(s, ops[..|ops| - 1]), ops[|ops| - 1]);
    }
  }

  /** An accepted VLAB transfer whose registers are not rewritten, through any other operations: up to its last tick
      SRAM and UART are as the CPU alone made them; that tick always ends DONE, and makes SRAM the memmove of
      its contents at that moment, or exchanges exactly those bytes with the stream. */
  lemma TransferIsAtomic(s: SocState, ops: seq<Op>)
    requires WellFormed(s) && s.dma.phase.Busy? && VlabTransfer(s.dma.src, s.dma.dst, s.dma.len)
    requires forall i :: 0 <= i < |ops| ==> KeepsTransfer(ops[i])
    requires UnfrozenTicks(s, ops) == s.dma.phase.remaining - 1 && !Run(s, ops).dma.stuck
    ensures var p := Run(s, ops);
            (p.sram, p.uart) == CpuRun(s.sram, s.uart, ops) && SameTransfer(s.dma, p.dma) && Transferred(p, Tick(p))
  {
    hide Tick, Run, UnfrozenTicks, CpuRun, Transferred;
    NothingMovesEarly(s, ops);
    CountdownOverRun(s, ops);
    KeepsTransferRun(s, ops);
    AcceptedCompletes(Run(s, ops));
  }
}
