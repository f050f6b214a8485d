/** The streams inside the SoC: every run of the machine is a run of the UART, and DMA there and back is faithful. */
module RoundTripTheorems {
  import opened Words
  import opened Platform
  import opened Bus
  import opened MemoryModel
  import opened PerfModel
  import opened UartModel
  import opened DmaModel
  import opened SocModel
  import opened Validators
  import opened Access
  import opened TransferTheorems
  import opened StreamTheorems

  // ---- every run of the SoC is a run of the UART ----

  /** What an operation does to the UART when no DMA transfer completes. */
  function CpuUart(op: Op): seq<UartOp> {
    match op
    case Rd(addr) => if addr % 4 == 0 && VlabWindow(addr) == 2 then [RegRead(addr - UART_BASE)] else []
    case Wr(addr, v) => if addr % 4 == 0 && VlabWindow(addr) == 2 then [RegWrite(addr - UART_BASE, v)] else []
    case Step => [Clock]
    case StickUart(on) => [Stick(on)]
    case _ => []
  }

  /** What an operation of the SoC does to the UART. */
  function UartPart(s: SocState, op: Op): seq<UartOp> {
    if op.Step? && Completing(s) then [Clock] + EnginePart(s) else CpuUart(op)
  }

  /** The stream traffic of a completing engine: a drain if it reads uart-rx, then an append if it has
      data for uart-tx. */
  function EnginePart(s: SocState): seq<UartOp> {
    var data := Fetch(s.sram, UartTick(s.uart), s.dma.src, s.dma.len).1;
    (if s.dma.src == UART_RXDATA then [Drain(s.dma.len)] else [])
    + (if s.dma.dst == UART_TXDATA && data.Some? then [Sink(data.value)] else [])
  }

  function UartTrace(s: SocState, ops: seq<Op>): seq<UartOp>
    decreases |ops|
  {
    if ops == [] then []
    else UartTrace(s, ops[..|ops| - 1]) + UartPart(Run(s, ops[..|ops| - 1]), ops[|ops| - 1])
  }

  lemma {:induction false} DoConcat(u: UartState, a: seq<UartOp>, b: seq<UartOp>)
    ensures DoAll(u, a + b) == DoAll(DoAll(u, a), b)
    decreases |b|
  {
    hide Do;
    if b == [] {
      assert a + b == a;
    } else {
      assert (a + b)[..|a + b| - 1] == a + b[..|b| - 1];
      DoConcat(u, a, b[..|b| - 1]);
    }
  }

  lemma UartStep(s: SocState, op: Op)
    ensures Exec(s, op).uart == DoAll(s.uart, UartPart(s, op))
  {
    match op
    case Step => UartTickStep(s);
    case Rd(addr) => UartReadStep(s, addr);
    case Wr(addr, v) => UartWriteStep(s, addr, v);
    case StickUart(on) => OneOp(s.uart, Stick(on));
    case _ =>
  }

  lemma UartReadStep(s: SocState, addr: u32)
    ensures BusRead(s, addr).0.uart == DoAll(s.uart, UartPart(s, Rd(addr)))
  {
    hide BusRead;
    ReadFrame(s, addr);
    if addr % 4 == 0 && VlabWindow(addr) == 2 {
      OneOp(s.uart, RegRead(addr - UART_BASE));
    }
  }

  lemma UartWriteStep(s: SocState, addr: u32, v: u32)
    ensures BusWrite(s, addr, v).0.uart == DoAll(s.uart, UartPart(s, Wr(addr, v)))
  {
    hide WriteUart;
    if addr % 4 == 0 && VlabWindow(addr) == 2 {
      VlabDecode(addr);
      OneOp(s.uart, RegWrite(addr - UART_BASE, v));
    } else {
      hide BusWrite;
      WriteFrame(s, addr, v);
    }
  }

  lemma UartTickStep(s: SocState)
    ensures Tick(s).uart == DoAll(s.uart, UartPart(s, Step))
  {
    hide UartTick, TimerModel.TimerTick, Count, Fetch, Deliver, EnginePart;
    OneOp(s.uart, Clock);
    if Completing(s) {
      DoConcat(s.uart, [Clock], EnginePart(s));
      EngineStreams(s);
    }
  }

  lemma EngineStreams(s: SocState)
    requires s.dma.phase.Busy?
    ensures Complete(s.dma, s.sram, UartTick(s.uart)).uart == DoAll(UartTick(s.uart), EnginePart(s))
  {
    hide UartTick, Append, AfterDrain, Delivered, WriteBytes, ReadBytes;
    var u := UartTick(s.uart);
    var drains := if s.dma.src == UART_RXDATA then [Drain(s.dma.len)] else [];
    var data := Fetch(s.sram, u, s.dma.src, s.dma.len).1;
    var sinks := if s.dma.dst == UART_TXDATA && data.Some? then [Sink(data.value)] else [];
    OneOp(u, Drain(s.dma.len));
    var u1 := DoAll(u, drains);
    DoConcat(u, drains, sinks);
    if sinks != [] {
      OneOp(u1, sinks[0]);
    }
  }

  lemma {:induction false} UartRun(s: SocState, ops: seq<Op>)
    ensures Run(s, ops).uart == DoAll(s.uart, UartTrace(s, ops))
    decreases |ops|
  {
    hide Exec, UartPart;
    if ops != [] {
      var init, last := ops[..|ops| - 1], ops[|ops| - 1];
      UartRun(s, init);
      UartStep(Run(s, init), last);
      DoConcat(s.uart, UartTrace(s, init), UartPart(Run(s, init), last));
    }
  }

  /** The queue laws therefore hold of the streams in every run of the whole machine. */
  lemma SocStreamsAreQueues(s: SocState, ops: seq<Op>)
    requires s.uart.tx == [] && s.uart.rx == []
    ensures var t, trace := Run(s, ops).uart, UartTrace(s, ops);
            && t.tx == Take(AllHanded(s.uart, trace), FIFO_SIZE)
            && |t.tx| <= FIFO_SIZE && |t.rx| <= FIFO_SIZE
            && (NeverOverflows(s.uart, trace) ==> AllTaken(s.uart, trace) + t.rx == AllHanded(s.uart, trace))
  {
    UartRun(s, ops);
    StreamsAreQueues(s.uart, UartTrace(s, ops));
  }

  // ---- well-formedness over runs ----

  lemma WellFormedStep(s: SocState, op: Op)
    requires WellFormed(s)
    ensures WellFormed(Exec(s, op))
  {
    match op
    case Step =>
      hide UartTick, TimerModel.TimerTick, Count, Append, AfterDrain, Delivered;
    case Rd(addr) => ReadFrame(s, addr);
    case Wr(addr, v) =>
      var w := VlabWindow(addr);
      WriteFrame(s, addr, v);
      if addr % 4 == 0 && (w == 1 || w == 4) {
        hide Verdict, Countdown;
        VlabDecode(addr);
      }
    case _ =>
  }

  // ---- there and back ----

  /** No operation of the run transmits a byte by hand or completes a DMA transfer. */
  predicate StreamsRest(s: SocState, ops: seq<Op>)
    decreases |ops|
  {
    ops == [] ||
    var init, last := ops[..|ops| - 1], ops[|ops| - 1];
    StreamsRest(s, init)
    && !(last.Wr? && last.addr == UART_TXDATA)
    && !(last.Step? && Completing(Run(s, init)))
  }

  lemma {:induction false} RestingRun(s: SocState, ops: seq<Op>)
    requires WellFormed(s) && StreamsRest(s, ops) && s.uart.busy <= 0
    ensures var t := Run(s, ops);
            WellFormed(t) && t.uart.busy <= 0 && t.uart.rx == s.uart.rx && t.uart.tx == s.uart.tx
    decreases |ops|
  {
    hide Exec, UartPart;
    if ops != [] {
      var init, last := ops[..|ops| - 1], ops[|ops| - 1];
      RestingRun(s, init);
      WellFormedStep(Run(s, init), last);
      UartStep(Run(s, init), last);
      RestingStep(Run(s, init), last);
    }
  }

  lemma RestingStep(s: SocState, op: Op)
    requires s.uart.busy <= 0 && !(op.Wr? && op.addr == UART_TXDATA) && !(op.Step? && Completing(s))
    ensures var u := DoAll(s.uart, UartPart(s, op));
            u.busy <= 0 && u.rx == s.uart.rx && u.tx == s.uart.tx
  {
    if UartPart(s, op) != [] {
      OneOp(s.uart, UartPart(s, op)[0]);
    }
  }

  /** SRAM[a..a+n) sent to uart-tx, any operations that leave the streams at rest, then n bytes from uart-rx to b:
      the destination holds the first n bytes of the old RX queue followed by the payload as it was when the
      first transfer completed, even if the payload overflowed the queue; with an empty queue, exactly that payload. */
  lemma DmaRoundTrip(s1: SocState, between: seq<Op>, a: u32, b: u32, n: u32)
    requires WellFormed(s1) && s1.uart.busy <= 0
    requires Completing(s1) && s1.dma.src == a && s1.dma.dst == UART_TXDATA && s1.dma.len == n
    requires VlabTransfer(a, UART_TXDATA, n) && VlabTransfer(UART_RXDATA, b, n)
    requires |s1.uart.rx| <= FIFO_SIZE
    requires StreamsRest(Tick(s1), between)
    requires var s3 := Run(Tick(s1), between);
             Completing(s3) && s3.dma.src == UART_RXDATA && s3.dma.dst == b && s3.dma.len == n
    ensures var payload := s1.sram.data[a - SRAM_BASE..a - SRAM_BASE + n];
            var s4 := Tick(Run(Tick(s1), between));
            && s4.dma.phase.Done?
            && ReadBytes(s4.sram, b, n) == Some((s1.uart.rx + payload)[..n])
            && s4.uart.rx == Saturate(s1.uart.rx, payload)[n..]
            && (s1.uart.rx == [] ==> ReadBytes(s4.sram, b, n) == ReadBytes(s1.sram, a, n))
  {
    hide Tick, Run, StreamsRest;
    var payload := s1.sram.data[a - SRAM_BASE..a - SRAM_BASE + n];
    AcceptedCompletes(s1);
    WellFormedStep(s1, Step);
    StepIsTick(s1);
    var s2 := Tick(s1);
    assert UartTick(s1.uart) == s1.uart;
    RestingRun(s2, between);
    var s3 := Run(s2, between);
    assert s3.uart.rx == Saturate(s1.uart.rx, payload) && UartTick(s3.uart) == s3.uart;
    AcceptedCompletes(s3);
    WellFormedStep(s3, Step);
    StepIsTick(s3);
    assert Delivered(s3.uart, n) == (s1.uart.rx + payload)[..n];
    WriteThenRead(s3.sram, b, Delivered(s3.uart, n));
    assert s1.uart.rx == [] ==> s1.uart.rx + payload == payload;
  }

  lemma WriteThenRead(m: Bank, addr: u32, p: seq<byte>)
    requires |p| < POW32 && WriteBytes(m, addr, p).Some?
    ensures ReadBytes(WriteBytes(m, addr, p).value, addr, |p|) == Some(p)
  {
  }
}
