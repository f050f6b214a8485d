/** The controller inside the SoC: every run of the machine is a run of the controller. */
module IntcRunTheorems {
  import opened Words
  import opened Platform
  import opened Bus
  import opened PerfModel
  import opened IntcModel
  import opened UartModel
  import opened DmaModel
  import opened SocModel
  import opened Access
  import opened IntcHistory

  /** What an operation of the SoC does to the controller: devices raise their lines, accesses reach it. */
  function IntcPart(s: SocState, op: Op): seq<IntcOp> {
    match op
    case Rd(addr) =>
      if addr % 4 == 0 && VlabWindow(addr) == 5 then [Load(addr - INTC_BASE)] else []
    case Wr(addr, v) =>
      if addr % 4 == 0 && VlabWindow(addr) == 5 then [Store(addr - INTC_BASE, v)]
      else if addr % 4 == 0 && VlabWindow(addr) == 4 && StartRaises(s.dma, addr - DMA_BASE, v) then [Arrive(IRQ_DMA)]
      else []
    case Step =>
      (if Completes(s.uart) then [Arrive(IRQ_UART)] else [])
      + (if TimerModel.Expires(s.timer) && s.timer.IrqEnabled() then [Arrive(IRQ_TIMER)] else [])
      + (if EngineTick(s.dma, s.sram, UartTick(s.uart)).raised then [Arrive(IRQ_DMA)] else [])
    case RaiseLine(line) => [Arrive(line)]
    case _ => []
  }

  function IntcTrace(s: SocState, ops: seq<Op>): seq<IntcOp>
    decreases |ops|
  {
    if ops == [] then []
    else IntcTrace(s, ops[..|ops| - 1]) + IntcPart(Run(s, ops[..|ops| - 1]), ops[|ops| - 1])
  }

  lemma {:induction false} AfterBoth(i: IntcState, a: seq<IntcOp>, b: seq<IntcOp>)
    ensures After(i, a + b) == After(After(i, a), b)
    decreases |b|
  {
    hide Do;
    if b == [] {
      assert a + b == a;
    } else {
      assert (a + b)[..|a + b| - 1] == a + b[..|b| - 1];
      AfterBoth(i, a, b[..|b| - 1]);
    }
  }

  lemma AfterOne(i: IntcState, op: IntcOp)
    ensures After(i, [op]) == Do(i, op)
  {
    assert [op][..0] == [];
    assert After(i, []) == i;
  }

  lemma AfterMaybe(i: IntcState, c: bool, line: int)
    ensures After(i, if c then [Arrive(line)] else []) == RaiseIf(i, c, line)
  {
    AfterOne(i, Arrive(line));
  }

  lemma IntcStep(s: SocState, op: Op)
    ensures Exec(s, op).intc == After(s.intc, IntcPart(s, op))
  {
    hide Do, BusRead, BusWrite, Tick;
    match op
    case Rd(addr) => IntcRead(s, addr);
    case Wr(addr, v) => IntcWrite(s, addr, v);
    case Step => IntcTick(s);
    case RaiseLine(line) =>
      AfterOne(s.intc, Arrive(line));
      ArriveIsRaise(s.intc, line);
    case _ =>
  }

  lemma ArriveIsRaise(i: IntcState, line: int)
    ensures Do(i, Arrive(line)) == Raise(i, line)
  {
  }

  lemma IntcRead(s: SocState, addr: u32)
    ensures BusRead(s, addr).0.intc == After(s.intc, IntcPart(s, Rd(addr)))
  {
    hide BusRead, Acked, Mask;
    ReadFrame(s, addr);
    if addr % 4 == 0 && VlabWindow(addr) == 5 {
      AfterOne(s.intc, Load(addr - INTC_BASE));
    }
  }

  lemma IntcWrite(s: SocState, addr: u32, v: u32)
    ensures BusWrite(s, addr, v).0.intc == After(s.intc, IntcPart(s, Wr(addr, v)))
  {
    hide WriteIntc, WriteDma, StartRaises, Raise;
    var w := VlabWindow(addr);
    if addr % 4 == 0 && w == 5 {
      VlabDecode(addr);
      AfterOne(s.intc, Store(addr - INTC_BASE, v));
    } else if addr % 4 == 0 && w == 4 {
      VlabDecode(addr);
      OnlyStartsRaise(s.dma, addr - DMA_BASE, v);
      AfterMaybe(s.intc, StartRaises(s.dma, addr - DMA_BASE, v), IRQ_DMA);
    } else {
      hide BusWrite;
      WriteFrame(s, addr, v);
    }
  }

  lemma IntcTick(s: SocState)
    ensures Tick(s).intc == After(s.intc, IntcPart(s, Step))
  {
    hide After, RaiseIf, EngineTick, Completes, TimerModel.Expires, Count;
    var i := s.intc;
    var c0, c1 := Completes(s.uart), TimerModel.Expires(s.timer) && s.timer.IrqEnabled();
    var c2 := EngineTick(s.dma, s.sram, UartTick(s.uart)).raised;
    var p0: seq<IntcOp> := if c0 then [Arrive(IRQ_UART)] else [];
    var p1: seq<IntcOp> := if c1 then [Arrive(IRQ_TIMER)] else [];
    var p2: seq<IntcOp> := if c2 then [Arrive(IRQ_DMA)] else [];
    AfterMaybe(i, c0, IRQ_UART);
    AfterMaybe(After(i, p0), c1, IRQ_TIMER);
    AfterBoth(i, p0, p1);
    AfterMaybe(After(i, p0 + p1), c2, IRQ_DMA);
    AfterBoth(i, p0 + p1, p2);
  }

  lemma {:induction false} IntcRun(s: SocState, ops: seq<Op>)
    ensures Run(s, ops).intc == After(s.intc, IntcTrace(s, ops))
    decreases |ops|
  {
    hide Exec, IntcPart;
    if ops != [] {
      var init, last := ops[..|ops| - 1], ops[|ops| - 1];
      IntcRun(s, init);
      IntcStep(Run(s, init), last);
      AfterBoth(s.intc, IntcTrace(s, init), IntcPart(Run(s, init), last));
    }
  }

  /** In every run of the machine from reset a line is pending exactly if some device or outside source raised it since
      the last ACK that returned it, and its ACKs plus its pending bit never exceed its raises. */
  lemma SocInterruptsConserved(s: SocState, ops: seq<Op>, l: Line)
    requires s.intc.pending == {}
    ensures var t, trace := Run(s, ops).intc, IntcTrace(s, ops);
            && (l in t.pending <==> RaisedSinceAck(s.intc, trace, l))
            && AckCount(s.intc, trace, l) + (if l in t.pending then 1 else 0) <= RaiseCount(trace, l)
  {
    IntcRun(s, ops);
    PendingIsRaisedSinceAck(s.intc, IntcTrace(s, ops), l);
  }
}
