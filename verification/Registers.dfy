/**
 The register map as software sees it on the bus: which accesses succeed, what a
 write leaves behind and what a read then answers.
 */
module RegisterTheorems {
  import opened Words
  import opened Platform
  import opened Bus
  import opened MemoryModel
  import opened PerfModel
  import opened IntcModel
  import opened UartModel
  import opened TimerModel
  import opened DmaModel
  import opened SocModel
  import opened Hal
  import opened Access
  import opened BootTheorems

  /** What a bus read of the address answers. */
  function Peek(s: SocState, addr: u32): Option<u32> {
    BusRead(s, addr).1
  }

  /** The machine after a bus write. */
  function Poke(s: SocState, addr: u32, v: u32): SocState {
    BusWrite(s, addr, v).0
  }

  // ---- which accesses succeed ----

  predicate InMemory(addr: u32) {
    addr < ROM_SIZE || SRAM_BASE <= addr < SRAM_BASE + SRAM_SIZE
  }

  /** The registers of the map that are not write-only, device by device. */
  predicate Readable(addr: u32) {
    || addr in [UART_RXDATA, UART_STATUS, UART_CTRL, UART_BAUDDIV]
    || addr in [TIMER_CTRL, TIMER_LOAD, TIMER_VALUE, TIMER_IRQ_STATUS]
    || addr in [DMA_SRC, DMA_DST, DMA_LEN, DMA_CTRL, DMA_STATUS, DMA_ERR_CODE]
    || addr in [INTC_ENABLE, INTC_PENDING, INTC_ACK, INTC_ACTIVE]
    || addr in [PERF_CYCLES, PERF_MEM_ACC, PERF_DMA_BYTES, PERF_IRQ_COUNT, PERF_STALLS, PERF_CTRL]
  }

  /** The registers of the map that are not read-only. */
  predicate Writable(addr: u32) {
    || addr in [UART_TXDATA, UART_CTRL, UART_BAUDDIV]
    || addr in [TIMER_CTRL, TIMER_LOAD, TIMER_IRQ_STATUS, TIMER_IRQ_CLEAR]
    || addr in [DMA_SRC, DMA_DST, DMA_LEN, DMA_CTRL, DMA_IRQ_CLEAR]
    || addr in [INTC_ENABLE, INTC_CLEAR]
    || addr in [PERF_CYCLES, PERF_MEM_ACC, PERF_DMA_BYTES, PERF_IRQ_COUNT, PERF_STALLS, PERF_CTRL]
  }

  /** What a read of an aligned address answers, device by device. */
  function Answer(s: SocState, addr: u32): Option<u32> {
    ReadWindow(s.(perf := Count(s.perf, ACCESS)), VlabWindow(addr), addr).1
  }

  lemma PeekIsAnswer(s: SocState, addr: u32)
    ensures Peek(s, addr) == if addr % 4 == 0 then Answer(s, addr) else None
  {
    hide Count, ReadWindow;
    if addr % 4 == 0 {
      VlabDecode(addr);
    }
  }

  lemma MemoryReads(s: SocState, addr: u32)
    requires WellFormed(s) && addr % 4 == 0 && VlabWindow(addr) <= 1
    ensures Answer(s, addr).Some? <==> InMemory(addr) || Readable(addr)
  {
    hide Count, PackWord;
  }

  lemma FrontReads(s: SocState, addr: u32)
    requires addr % 4 == 0 && 2 <= VlabWindow(addr) <= 4
    ensures Answer(s, addr).Some? <==> InMemory(addr) || Readable(addr)
  {
    hide Count;
  }

  lemma BackReads(s: SocState, addr: u32)
    requires addr % 4 == 0 && 5 <= VlabWindow(addr)
    ensures Answer(s, addr).Some? <==> InMemory(addr) || Readable(addr)
  {
    hide Count, Acked, Mask, AckValue;
  }

  /** A read succeeds exactly on aligned words of the memories and on the readable registers; everywhere else the
      firmware gets 0. */
  lemma ReadsExactly(s: SocState, addr: u32)
    requires WellFormed(s)
    ensures Peek(s, addr).Some? <==> addr % 4 == 0 && (InMemory(addr) || Readable(addr))
    ensures HalRead(s, addr).1 == if Peek(s, addr).Some? then Peek(s, addr).value else 0
  {
    hide BusRead, Answer, InMemory, Readable, WellFormed;
    PeekIsAnswer(s, addr);
    if addr % 4 == 0 {
      if VlabWindow(addr) <= 1 {
        MemoryReads(s, addr);
      } else if VlabWindow(addr) <= 4 {
        FrontReads(s, addr);
      } else {
        BackReads(s, addr);
      }
    }
  }

  /** The status of a write to an aligned address, device by device. */
  function Reaction(s: SocState, addr: u32, v: u32): WriteStatus {
    WriteWindow(s.(perf := Count(s.perf, ACCESS)), VlabWindow(addr), addr, v).1
  }

  lemma WriteIsReaction(s: SocState, addr: u32, v: u32)
    ensures BusWrite(s, addr, v).1 == if addr % 4 == 0 then Reaction(s, addr, v) else BusFault
  {
    hide Count, WriteWindow;
    if addr % 4 == 0 {
      VlabDecode(addr);
    }
  }

  /** The address can be written, and the UART takes the byte if it is TXDATA. */
  function Expected(s: SocState, addr: u32): WriteStatus {
    if addr == UART_TXDATA && !Bit0(s.uart.ctrl) then Disabled
    else if SRAM_BASE <= addr < SRAM_BASE + SRAM_SIZE || Writable(addr) then Ok
    else BusFault
  }

  lemma MemoryWrites(s: SocState, addr: u32, v: u32)
    requires WellFormed(s) && addr % 4 == 0 && VlabWindow(addr) <= 1
    ensures Reaction(s, addr, v) == Expected(s, addr)
  {
    hide Count, UnpackWord, Splice;
  }

  lemma FrontWrites(s: SocState, addr: u32, v: u32)
    requires addr % 4 == 0 && 2 <= VlabWindow(addr) <= 4
    ensures Reaction(s, addr, v) == Expected(s, addr)
  {
    hide Count, StartDma, StartBusy;
  }

  lemma BackWrites(s: SocState, addr: u32, v: u32)
    requires addr % 4 == 0 && 5 <= VlabWindow(addr)
    ensures Reaction(s, addr, v) == Expected(s, addr)
  {
    hide Count, Lines, Cleared;
  }

  /** A write succeeds exactly on SRAM words and the writable registers, except for TXDATA of a disabled UART; every other
      address faults, ROM and read-only registers included. */
  lemma WritesExactly(s: SocState, addr: u32, v: u32)
    requires WellFormed(s)
    ensures BusWrite(s, addr, v).1 == if addr % 4 == 0 then Expected(s, addr) else BusFault
  {
    hide BusWrite, Reaction, Expected, WellFormed;
    WriteIsReaction(s, addr, v);
    if addr % 4 == 0 {
      if VlabWindow(addr) <= 1 {
        MemoryWrites(s, addr, v);
      } else if VlabWindow(addr) <= 4 {
        FrontWrites(s, addr, v);
      } else {
        BackWrites(s, addr, v);
      }
    }
  }

  /** A refused write leaves no trace but its counts. */
  lemma RefusedIsHarmless(s: SocState, addr: u32, v: u32)
    ensures BusWrite(s, addr, v).1 != Ok ==> SameButPerf(s, Poke(s, addr, v))
  {
    hide Count, UnpackWord, Lines, StartDma, Splice, WritePerf;
    if addr % 4 == 0 {
      VlabDecode(addr);
    }
  }

  // ---- what the registers show ----

  /** The readable registers of UART and timer. */
  lemma UartAndTimerShow(s: SocState)
    ensures Peek(s, UART_RXDATA) == Some(s.uart.rxdata)
    ensures Peek(s, UART_STATUS) == Some((if s.uart.busy > 0 then 1 else 2) + if s.uart.rxValid then 4 else 0)
    ensures Peek(s, UART_CTRL) == Some(s.uart.ctrl) && Peek(s, UART_BAUDDIV) == Some(s.uart.bauddiv)
    ensures Peek(s, TIMER_CTRL) == Some(s.timer.ctrl) && Peek(s, TIMER_LOAD) == Some(s.timer.load)
    ensures Peek(s, TIMER_VALUE) == Some(s.timer.value)
    ensures Peek(s, TIMER_IRQ_STATUS) == Some(if s.timer.fired then 1 else 0)
  {
    hide Count;
    VlabDecode(UART_RXDATA);
    VlabDecode(UART_STATUS);
    VlabDecode(UART_CTRL);
    VlabDecode(UART_BAUDDIV);
    VlabDecode(TIMER_CTRL);
    VlabDecode(TIMER_LOAD);
    VlabDecode(TIMER_VALUE);
    VlabDecode(TIMER_IRQ_STATUS);
  }

  lemma DmaShows(s: SocState)
    ensures Peek(s, DMA_SRC) == Some(s.dma.src) && Peek(s, DMA_DST) == Some(s.dma.dst)
    ensures Peek(s, DMA_LEN) == Some(s.dma.len) && Peek(s, DMA_CTRL) == Some(s.dma.ctrl)
    ensures var p := s.dma.phase;
            Peek(s, DMA_STATUS) == Some(if p.Idle? then 0 else if p.Busy? then 1 else if p.Done? then 2 else 4)
    ensures Peek(s, DMA_ERR_CODE) == Some(if s.dma.phase.Failed? then s.dma.phase.code else 0)
  {
    hide BusRead;
    DmaRead(s, DMA_SRC);
    DmaRead(s, DMA_DST);
    DmaRead(s, DMA_LEN);
    DmaRead(s, DMA_CTRL);
    DmaRead(s, DMA_STATUS);
    DmaRead(s, DMA_ERR_CODE);
  }

  /** Whether bit l of a register value is set. */
  predicate BitSet(v: u32, l: Line) {
    v / (if l == 0 then 1 else if l == 1 then 2 else 4) % 2 == 1
  }

  lemma LinesAreBits(v: u32, l: Line)
    ensures l in Lines(v) <==> BitSet(v, l)
  {
    assert l == 0 || l == 1 || l == 2;
  }

  /** A register value below 8 is determined by its three bits. */
  lemma MaskBits(i: set<Line>, l: Line)
    ensures BitSet(Mask(i), l) <==> l in i
  {
    LinesAreBits(Mask(i), l);
    MaskOfLines(0, i);
  }

  /** ENABLE, PENDING and ACTIVE show one bit a line. */
  lemma IntcShows(s: SocState, l: Line)
    ensures Peek(s, INTC_ENABLE).Some? && Peek(s, INTC_PENDING).Some? && Peek(s, INTC_ACTIVE).Some?
    ensures Peek(s, INTC_ENABLE).value < 8 && Peek(s, INTC_PENDING).value < 8 && Peek(s, INTC_ACTIVE).value < 8
    ensures BitSet(Peek(s, INTC_ENABLE).value, l) <==> l in s.intc.enable
    ensures BitSet(Peek(s, INTC_PENDING).value, l) <==> l in s.intc.pending
    ensures BitSet(Peek(s, INTC_ACTIVE).value, l) <==> l in s.intc.active
  {
    hide Count, Mask, BitSet;
    VlabDecode(INTC_ENABLE);
    VlabDecode(INTC_PENDING);
    VlabDecode(INTC_ACTIVE);
    MaskBits(s.intc.enable, l);
    MaskBits(s.intc.pending, l);
    MaskBits(s.intc.active, l);
  }

  // ---- what a write leaves behind ----

  lemma IntcWindow(s: SocState, addr: u32, v: u32)
    requires INTC_BASE <= addr < PERF_BASE && addr % 4 == 0
    ensures var i := WriteIntc(s.intc, addr - INTC_BASE, v);
            SameButPerf(s.(intc := if i.Some? then i.value else s.intc), Poke(s, addr, v))
  {
    hide Count, WriteIntc;
    VlabDecode(addr);
  }

  /** Writing ENABLE enables exactly the lines whose bits are set, leaves PENDING, ACTIVE and every other device alone,
      and reads back as the three implemented bits. */
  lemma EnableTakesEffect(s: SocState, v: u32, l: Line)
    ensures var t := Poke(s, INTC_ENABLE, v);
            && (l in t.intc.enable <==> BitSet(v, l))
            && SameButPerf(s.(intc := s.intc.(enable := t.intc.enable)), t)
            && Peek(t, INTC_ENABLE) == Some(v % 8)
  {
    hide Poke, Peek, BitSet, Lines, Mask;
    IntcWindow(s, INTC_ENABLE, v);
    LinesAreBits(v, l);
    LowLines(v);
    MaskOfLines(v % 8, {});
    EnableShows(Poke(s, INTC_ENABLE, v));
  }

  lemma EnableShows(s: SocState)
    ensures Peek(s, INTC_ENABLE) == Some(Mask(s.intc.enable))
  {
    hide Count, Mask;
    VlabDecode(INTC_ENABLE);
  }

  lemma LowLines(v: u32)
    ensures Lines(v) == Lines(v % 8)
  {
    LowBitsOf(v / 8, v % 8);
  }

  /** So an enabled line that is raised is returned by the next ACK, if it is the only one. */
  lemma EnabledLineIsReturned(s: SocState, v: u32, l: Line)
    requires BitSet(v, l) && s.intc.pending == {}
    ensures var t := Exec(Poke(s, INTC_ENABLE, v), RaiseLine(l));
            Peek(t, INTC_ACK) == Some(l)
  {
    hide Poke, HalRead, BitSet;
    EnableTakesEffect(s, v, l);
    var t := Exec(Poke(s, INTC_ENABLE, v), RaiseLine(l));
    assert Gated(t.intc) == {l};
    AckShows(t);
  }

  lemma AckShows(s: SocState)
    ensures Peek(s, INTC_ACK) == Some(AckValue(s.intc))
  {
    hide Count, Acked, AckValue;
    VlabDecode(INTC_ACK);
  }

  /** Writing CLEAR drops the ACTIVE bit of an implemented line and nothing else; other numbers are ignored. */
  lemma ClearTakesEffect(s: SocState, v: u32)
    ensures SameButPerf(s.(intc := s.intc.(active := if v < 3 then s.intc.active - {v} else s.intc.active)),
                        Poke(s, INTC_CLEAR, v))
  {
    hide Poke;
    IntcWindow(s, INTC_CLEAR, v);
  }

  lemma TimerWindow(s: SocState, addr: u32, v: u32)
    requires TIMER_BASE <= addr < DMA_BASE && addr % 4 == 0
    ensures var t := WriteTimer(s.timer, addr - TIMER_BASE, v);
            SameButPerf(s.(timer := if t.Some? then t.value else s.timer), Poke(s, addr, v))
  {
    hide Count, WriteTimer;
    VlabDecode(addr);
  }

  /** LOAD stores without touching the running count; CTRL stores and starts a stopped timer from LOAD if nothing is
      left of the old count; either status register is cleared by writing a one and kept by a zero. */
  lemma TimerTakesEffect(s: SocState, v: u32)
    ensures SameButPerf(s.(timer := s.timer.(load := v)), Poke(s, TIMER_LOAD, v))
    ensures var restart := Bit0(v) && !Bit0(s.timer.ctrl) && s.timer.value == 0;
            SameButPerf(s.(timer := s.timer.(ctrl := v, value := if restart then s.timer.load else s.timer.value)),
                        Poke(s, TIMER_CTRL, v))
    ensures SameButPerf(s.(timer := s.timer.(fired := s.timer.fired && !Bit0(v))), Poke(s, TIMER_IRQ_STATUS, v))
    ensures SameButPerf(s.(timer := s.timer.(fired := s.timer.fired && !Bit0(v))), Poke(s, TIMER_IRQ_CLEAR, v))
  {
    hide Poke;
    TimerWindow(s, TIMER_LOAD, v);
    TimerWindow(s, TIMER_CTRL, v);
    TimerWindow(s, TIMER_IRQ_STATUS, v);
    TimerWindow(s, TIMER_IRQ_CLEAR, v);
  }

  /** As software sees it: what is written to the timer is read back, VALUE follows LOAD on a fresh start only, and a fired
      timer is acknowledged by writing 1 to its status. */
  lemma TimerReadsBack(s: SocState, v: u32)
    ensures Peek(Poke(s, TIMER_LOAD, v), TIMER_LOAD) == Some(v)
    ensures Peek(Poke(s, TIMER_LOAD, v), TIMER_VALUE) == Peek(s, TIMER_VALUE)
    ensures Peek(Poke(s, TIMER_CTRL, v), TIMER_CTRL) == Some(v)
    ensures Bit0(v) && s.timer == TimerState(0, s.timer.load, 0, false) ==>
              Peek(Poke(s, TIMER_CTRL, v), TIMER_VALUE) == Peek(s, TIMER_LOAD)
    ensures Peek(Poke(s, TIMER_IRQ_STATUS, 1), TIMER_IRQ_STATUS) == Some(0)
    ensures Peek(Poke(s, TIMER_IRQ_STATUS, 0), TIMER_IRQ_STATUS) == Peek(s, TIMER_IRQ_STATUS)
  {
    hide Poke, Peek;
    UartAndTimerShow(s);
    TimerTakesEffect(s, v);
    UartAndTimerShow(Poke(s, TIMER_LOAD, v));
    UartAndTimerShow(Poke(s, TIMER_CTRL, v));
    TimerTakesEffect(s, 1);
    UartAndTimerShow(Poke(s, TIMER_IRQ_STATUS, 1));
    TimerTakesEffect(s, 0);
    UartAndTimerShow(Poke(s, TIMER_IRQ_STATUS, 0));
  }

  lemma UartWindow(s: SocState, addr: u32, v: u32)
    requires UART_BASE <= addr < TIMER_BASE && addr % 4 == 0
    ensures SameButPerf(s.(uart := WriteUart(s.uart, addr - UART_BASE, v).0), Poke(s, addr, v))
  {
    hide Count, WriteUart;
    VlabDecode(addr);
  }

  /** CTRL and BAUDDIV store and read back without disturbing a transmission; TXDATA starts one with the low byte,
      replacing one under way, or does nothing while disabled. */
  lemma UartTakesEffect(s: SocState, v: u32)
    ensures SameButPerf(s.(uart := s.uart.(ctrl := v)), Poke(s, UART_CTRL, v))
    ensures Peek(Poke(s, UART_CTRL, v), UART_CTRL) == Some(v)
    ensures SameButPerf(s.(uart := s.uart.(bauddiv := v)), Poke(s, UART_BAUDDIV, v))
    ensures Peek(Poke(s, UART_BAUDDIV, v), UART_BAUDDIV) == Some(v)
    ensures var l := s.uart.latency;
            var wait := if l == 0 then 1 else if l < POW31 then l else l - POW32;
            SameButPerf(s.(uart := if Bit0(s.uart.ctrl) then s.uart.(txdata := v % 0x100, busy := wait) else s.uart),
                        Poke(s, UART_TXDATA, v))
  {
    hide Poke, Peek;
    UartWindow(s, UART_CTRL, v);
    UartWindow(s, UART_BAUDDIV, v);
    UartWindow(s, UART_TXDATA, v);
    UartAndTimerShow(Poke(s, UART_CTRL, v));
    UartAndTimerShow(Poke(s, UART_BAUDDIV, v));
  }

  /** SRC, DST and LEN store and read back, busy or not; CTRL without START stores and starts nothing; IRQ_CLEAR drops a
      terminal flag and its code, whatever is written, and leaves a running transfer. */
  lemma DmaTakesEffect(s: SocState, v: u32)
    ensures SameButPerf(s.(dma := s.dma.(src := v)), Poke(s, DMA_SRC, v)) && Peek(Poke(s, DMA_SRC, v), DMA_SRC) == Some(v)
    ensures SameButPerf(s.(dma := s.dma.(dst := v)), Poke(s, DMA_DST, v)) && Peek(Poke(s, DMA_DST, v), DMA_DST) == Some(v)
    ensures SameButPerf(s.(dma := s.dma.(len := v)), Poke(s, DMA_LEN, v)) && Peek(Poke(s, DMA_LEN, v), DMA_LEN) == Some(v)
    ensures !Bit0(v) ==> SameButPerf(s.(dma := s.dma.(ctrl := v)), Poke(s, DMA_CTRL, v))
    ensures Peek(Poke(s, DMA_CTRL, v), DMA_CTRL) == Some(v - v % 2)
    ensures SameButPerf(s.(dma := s.dma.(phase := if s.dma.phase.Busy? then s.dma.phase else Phase.Idle)),
                        Poke(s, DMA_IRQ_CLEAR, v))
  {
    hide Peek, HalWrite, StartDma;
    WriteOp(s, DMA_SRC, v);
    WriteOp(s, DMA_DST, v);
    WriteOp(s, DMA_LEN, v);
    WriteOp(s, DMA_CTRL, v);
    WriteOp(s, DMA_IRQ_CLEAR, v);
    hide BusWrite;
    DmaWrite(s, DMA_SRC, v);
    DmaWrite(s, DMA_DST, v);
    DmaWrite(s, DMA_LEN, v);
    DmaWrite(s, DMA_CTRL, v);
    DmaWrite(s, DMA_IRQ_CLEAR, v);
    DmaShows(Poke(s, DMA_SRC, v));
    DmaShows(Poke(s, DMA_DST, v));
    DmaShows(Poke(s, DMA_LEN, v));
    DmaShows(Poke(s, DMA_CTRL, v));
  }

  // ---- counters ----

  /** Every counter reads as it is, except that reading MEM_ACC counts as the access it is. */
  lemma PerfShows(s: SocState)
    ensures Peek(s, PERF_CYCLES) == Some(s.perf.cycles)
    ensures Peek(s, PERF_MEM_ACC) == Some(if s.perf.enabled then Wrap(s.perf.memAcc + 1) else s.perf.memAcc)
    ensures Peek(s, PERF_DMA_BYTES) == Some(s.perf.dmaBytes) && Peek(s, PERF_IRQ_COUNT) == Some(s.perf.irqCount)
    ensures Peek(s, PERF_STALLS) == Some(s.perf.stalls) && Peek(s, PERF_CTRL) == Some(s.perf.ctrl)
  {
    hide Peek, Count;
    CountOne(s.perf);
    PerfRead(s, PERF_CYCLES);
    PerfRead(s, PERF_MEM_ACC);
    PerfRead(s, PERF_DMA_BYTES);
    PerfRead(s, PERF_IRQ_COUNT);
    PerfRead(s, PERF_STALLS);
    PerfRead(s, PERF_CTRL);
  }

  lemma PerfRead(s: SocState, addr: u32)
    requires PERF_BASE <= addr < PERF_BASE + 0x1000 && addr % 4 == 0
    ensures Peek(s, addr) == ReadPerf(Count(s.perf, ACCESS), addr - PERF_BASE)
  {
    hide Count, ReadPerf;
    VlabDecode(addr);
  }

  lemma CountOne(p: PerfState)
    ensures Count(p, ACCESS) == if p.enabled then p.(memAcc := Wrap(p.memAcc + 1)) else p
  {
    CountNothing(p);
  }

  lemma PerfWindow(s: SocState, addr: u32, v: u32)
    requires PERF_BASE <= addr < PERF_BASE + 0x1000 && addr % 4 == 0
    requires WritePerf(s.perf, addr - PERF_BASE, v).Some?
    ensures Poke(s, addr, v) == s.(perf := WritePerf(Count(s.perf, ACCESS), addr - PERF_BASE, v).value)
  {
    hide Count;
    VlabDecode(addr);
  }

  /** A written counter is overwritten, after the write itself was counted; CTRL enables by bit 0 and clears every counter
      by bit 1. */
  lemma PerfTakesEffect(s: SocState, v: u32)
    ensures var p := if s.perf.enabled then s.perf.(memAcc := Wrap(s.perf.memAcc + 1)) else s.perf;
            && Poke(s, PERF_CYCLES, v) == s.(perf := p.(cycles := v))
            && Poke(s, PERF_MEM_ACC, v) == s.(perf := p.(memAcc := v))
            && Poke(s, PERF_DMA_BYTES, v) == s.(perf := p.(dmaBytes := v))
            && Poke(s, PERF_IRQ_COUNT, v) == s.(perf := p.(irqCount := v))
            && Poke(s, PERF_STALLS, v) == s.(perf := p.(stalls := v))
            && Poke(s, PERF_CTRL, v) == s.(perf := if Bit1(v) then PerfState(0, 0, 0, 0, 0, Bit0(v), v)
                                                   else p.(enabled := Bit0(v), ctrl := v))
  {
    hide Poke, Count;
    CountOne(s.perf);
    PerfWindow(s, PERF_CYCLES, v);
    PerfWindow(s, PERF_MEM_ACC, v);
    PerfWindow(s, PERF_DMA_BYTES, v);
    PerfWindow(s, PERF_IRQ_COUNT, v);
    PerfWindow(s, PERF_STALLS, v);
    PerfWindow(s, PERF_CTRL, v);
  }

  /** The usual start of a measurement: CTRL := 3 enables and clears, and the next reads show zeros and the one read. */
  lemma MeasurementStarts(s: SocState)
    ensures var t := Poke(s, PERF_CTRL, 3);
            && Peek(t, PERF_CYCLES) == Some(0) && Peek(t, PERF_MEM_ACC) == Some(1) && Peek(t, PERF_DMA_BYTES) == Some(0)
            && Peek(t, PERF_IRQ_COUNT) == Some(0) && Peek(t, PERF_STALLS) == Some(0) && Peek(t, PERF_CTRL) == Some(3)
  {
    hide Poke, Peek;
    PerfTakesEffect(s, 3);
    PerfShows(Poke(s, PERF_CTRL, 3));
  }

  // ---- reset ----

  /** Every register of the devices reads its documented reset value, no line is raised or enabled, both streams are
      empty, and neither engine nor UART is frozen. */
  ghost predicate AtReset(s: SocState) {
    && Peek(s, UART_RXDATA) == Some(0) && Peek(s, UART_STATUS) == Some(2)
    && Peek(s, UART_CTRL) == Some(0) && Peek(s, UART_BAUDDIV) == Some(0)
    && Peek(s, TIMER_CTRL) == Some(0) && Peek(s, TIMER_LOAD) == Some(0)
    && Peek(s, TIMER_VALUE) == Some(0) && Peek(s, TIMER_IRQ_STATUS) == Some(0)
    && Peek(s, DMA_SRC) == Some(0) && Peek(s, DMA_DST) == Some(0) && Peek(s, DMA_LEN) == Some(0)
    && Peek(s, DMA_CTRL) == Some(0) && Peek(s, DMA_STATUS) == Some(0) && Peek(s, DMA_ERR_CODE) == Some(0)
    && Peek(s, INTC_ENABLE) == Some(0) && Peek(s, INTC_PENDING) == Some(0) && Peek(s, INTC_ACTIVE) == Some(0)
    && Peek(s, INTC_ACK) == Some(NO_LINE)
    && s.uart.tx == [] && s.uart.rx == [] && s.uart.busy == 0 && s.uart.txdata == 0 && !s.uart.stuck && !s.dma.stuck
  }

  lemma ShowsReset(s: SocState)
    requires s.uart == UartState(s.uart.latency, 0, 0, 0, 0, 0, false, false, [], [])
    requires s.timer == TimerState(0, 0, 0, false) && s.intc == IntcState({}, {}, {})
    requires s.dma == DmaState(s.dma.cfg, 0, 0, 0, 0, Phase.Idle, false)
    ensures AtReset(s)
  {
    hide Peek;
    UartAndTimerShow(s);
    DmaShows(s);
    IntcShowsNothing(s);
    AckShows(s);
  }

  lemma IntcShowsNothing(s: SocState)
    requires s.intc == IntcState({}, {}, {})
    ensures Peek(s, INTC_ENABLE) == Some(0) && Peek(s, INTC_PENDING) == Some(0) && Peek(s, INTC_ACTIVE) == Some(0)
  {
    hide Count;
    VlabDecode(INTC_ENABLE);
    VlabDecode(INTC_PENDING);
    VlabDecode(INTC_ACTIVE);
  }

  /** A reset of the devices brings back every reset value, whatever was going on, and keeps configuration, memories,
      counters and time. */
  lemma ResetRestores(s: SocState)
    ensures var t := ResetAll(s);
            && AtReset(t)
            && t.dma.cfg == s.dma.cfg && t.uart.latency == s.uart.latency
            && t.rom == s.rom && t.sram == s.sram && t.perf == s.perf && t.ticks == s.ticks
  {
    hide AtReset;
    ShowsReset(ResetAll(s));
  }

  /** So does boot, with the counters enabled and five cycles counted; the read of MEM_ACC sees itself. */
  lemma BootRestores(s: SocState, image: seq<u32>)
    ensures var t := Booted(s, image);
            && AtReset(t)
            && t.dma.cfg == s.dma.cfg && t.uart.latency == s.uart.latency
            && Peek(t, PERF_CYCLES) == Some(5) && Peek(t, PERF_MEM_ACC) == Some(1) && Peek(t, PERF_DMA_BYTES) == Some(0)
            && Peek(t, PERF_IRQ_COUNT) == Some(0) && Peek(t, PERF_STALLS) == Some(0) && Peek(t, PERF_CTRL) == Some(1)
  {
    hide AtReset, Booted, Peek, LoadWords;
    BootResult(s, image);
    ShowsReset(Booted(s, image));
    PerfShows(Booted(s, image));
  }

  /** A new machine is at reset too; a configured latency or burst of 0 counts as 1. */
  lemma NewMachine(latency: u32, burst: u32, uartLatency: u32)
    ensures var s := Initial(VlabConfig(latency, burst), uartLatency);
            && AtReset(s) && WellFormed(s)
            && s.dma.cfg.latency == (if latency == 0 then 1 else latency)
            && s.dma.cfg.burst == (if burst == 0 then 1 else burst)
            && s.uart.latency == uartLatency
            && Peek(s, PERF_CYCLES) == Some(0) && Peek(s, PERF_MEM_ACC) == Some(0) && Peek(s, PERF_DMA_BYTES) == Some(0)
            && Peek(s, PERF_IRQ_COUNT) == Some(0) && Peek(s, PERF_STALLS) == Some(0) && Peek(s, PERF_CTRL) == Some(0)
  {
    hide AtReset, Peek;
    ShowsReset(Initial(VlabConfig(latency, burst), uartLatency));
    PerfShows(Initial(VlabConfig(latency, burst), uartLatency));
  }
}
