/** What a bus access to a device register amounts to, and what the machine keeps. */
module Access {
  import opened Words
  import opened Platform
  import opened Bus
  import opened MemoryModel
  import opened PerfModel
  import opened IntcModel
  import opened UartModel
  import opened DmaModel
  import opened SocModel
  import opened Hal
  import opened DmaDriverModel
  import opened Validators

  /** The two machines differ at most in their performance counters. */
  predicate SameButPerf(s: SocState, t: SocState) {
    s.(perf := t.perf) == t
  }

  lemma DmaRead(s: SocState, addr: u32)
    requires DMA_BASE <= addr < INTC_BASE && addr % 4 == 0
    ensures var (s1, v) := BusRead(s, addr);
            SameButPerf(s, s1) && v == ReadDma(s.dma, addr - DMA_BASE)
  {
    VlabDecode(addr);
  }

  lemma DmaWrite(s: SocState, addr: u32, v: u32)
    requires DMA_BASE <= addr < INTC_BASE && addr % 4 == 0
    requires WriteDma(s.dma, addr - DMA_BASE, v).Some?
    ensures var s1 := HalWrite(s, addr, v);
            SameButPerf(s.(dma := WriteDma(s.dma, addr - DMA_BASE, v).value,
                           intc := RaiseIf(s.intc, StartRaises(s.dma, addr - DMA_BASE, v), IRQ_DMA)), s1)
  {
    hide StartDma;
    VlabDecode(addr);
  }

  lemma AckRead(s: SocState)
    ensures var (s1, v) := HalRead(s, INTC_ACK);
            SameButPerf(s.(intc := Acked(s.intc)), s1) && v == AckValue(s.intc)
  {
    hide Acked, AckValue;
    VlabDecode(INTC_ACK);
  }

  lemma ClearLine(s: SocState, line: u32)
    ensures SameButPerf(s.(intc := s.intc.(active := if line < 3 then s.intc.active - {line} else s.intc.active)),
                        HalWrite(s, INTC_CLEAR, line))
  {
    VlabDecode(INTC_CLEAR);
  }

  /** The engine after IRQ_CLEAR: terminal flags gone, a running transfer untouched. */
  function FlagsCleared(d: DmaState): DmaState {
    if d.phase.Busy? then d else d.(phase := Phase.Idle)
  }

  lemma TwoStepClears(s: SocState)
    ensures SameButPerf(s.(dma := FlagsCleared(s.dma), intc := s.intc.(active := s.intc.active - {IRQ_DMA})),
                        TwoStepClear(s))
  {
    DmaWrite(s, DMA_IRQ_CLEAR, 1);
    ClearLine(HalWrite(s, DMA_IRQ_CLEAR, 1), IRQ_DMA);
  }

  /** The engine once the three registers of a transfer are written. */
  function Programmed(d: DmaState, src: u32, dst: u32, len: u32): DmaState {
    d.(src := src, dst := dst, len := len)
  }

  lemma ProgramStarts(s: SocState, src: u32, dst: u32, len: u32, irq: bool)
    ensures var d := Programmed(s.dma, src, dst, len);
            SameButPerf(s.(dma := StartDma(d, irq).(ctrl := if irq then 2 else 0),
                           intc := RaiseIf(s.intc, irq && !d.phase.Busy? && Verdict(d.cfg, src, dst, len) != ERR_NONE,
                                           IRQ_DMA)),
                        Program(s, src, dst, len, irq))
  {
    hide HalWrite, StartDma, Verdict;
    DmaWrite(s, DMA_SRC, src);
    var s1 := HalWrite(s, DMA_SRC, src);
    DmaWrite(s1, DMA_DST, dst);
    var s2 := HalWrite(s1, DMA_DST, dst);
    DmaWrite(s2, DMA_LEN, len);
    var s3 := HalWrite(s2, DMA_LEN, len);
    DmaWrite(s3, DMA_CTRL, if irq then 3 else 1);
  }

  /** On an idle engine with the driver's tables, the driver's answer predicts what the START does: OK exactly
      when the engine goes busy, and otherwise the number of the error code it latches. */
  lemma DriverPredictsEngine(s: SocState, src: u32, dst: u32, len: u32, irq: bool)
    requires !s.dma.phase.Busy?
    ensures var rc := Check(SharedTables(s.dma.cfg), src, dst, len);
            var p := Program(s, src, dst, len, irq).dma.phase;
            if rc == DMA_OK then p == Phase.Busy(Countdown(s.dma.cfg, len), irq)
            else p.Failed? && rc == DriverCode(p.code)
  {
    hide Program, Check, Verdict, Countdown;
    ProgramStarts(s, src, dst, len, irq);
    ValidatorsAgree(s.dma.cfg, src, dst, len);
  }

  // ---- frames of a bus access ----

  /** A bus read can change only the UART's receive flag, the controller (by an ACK) and counters. */
  lemma ReadFrame(s: SocState, addr: u32)
    ensures var s1 := BusRead(s, addr).0;
            SameButPerf(s.(intc := if addr == INTC_ACK then Acked(s.intc) else s.intc,
                           uart := if addr == UART_RXDATA then s.uart.(rxValid := false) else s.uart), s1)
  {
    hide Acked, AckCounts, Count, MemoryModel.ReadWord, TimerModel.ReadTimer, ReadDma, ReadPerf, Mask;
    if addr % 4 == 0 {
      VlabDecode(addr);
    }
  }

  /** A bus write changes the engine only in the DMA window, the controller only in the INTC
      window or by a refused START, the other devices only in their own windows, protected ROM never. */
  lemma WriteFrame(s: SocState, addr: u32, v: u32)
    ensures var s1 := BusWrite(s, addr, v).0;
            s1.ticks == s.ticks
            && (s.rom.readonly || VlabWindow(addr) != 0 ==> s1.rom == s.rom)
            && (VlabWindow(addr) != 1 ==> s1.sram == s.sram)
            && (VlabWindow(addr) != 2 ==> s1.uart == s.uart)
            && (VlabWindow(addr) != 3 ==> s1.timer == s.timer)
            && (VlabWindow(addr) != 4 ==> s1.dma == s.dma)
            && (VlabWindow(addr) != 5 ==>
                  s1.intc == RaiseIf(s.intc, addr % 4 == 0 && VlabWindow(addr) == 4
                                             && StartRaises(s.dma, addr - DMA_BASE, v), IRQ_DMA))
            && (addr % 4 != 0 ==> SameButPerf(s, s1))
  {
    hide Splice, Holds, WriteUart, TimerModel.WriteTimer, WriteDma, StartRaises, Raise, WriteIntc, WritePerf, UnpackWord;
    if addr % 4 == 0 {
      VlabDecode(addr);
      if VlabWindow(addr) == 4 {
        OnlyStartsRaise(s.dma, addr - DMA_BASE, v);
      }
    }
  }
}
