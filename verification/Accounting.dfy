/** The performance counters count what software can observe, over every run. */
module AccountingTheorems {
  import opened Words
  import opened Platform
  import opened Bus
  import opened MemoryModel
  import opened PerfModel
  import opened IntcModel
  import opened UartModel
  import opened DmaModel
  import opened SocModel
  import opened RegisterTheorems

  /** What an operation should count, judged by its result: aligned accesses, accesses that did not succeed and
      STARTs while busy, acknowledged interrupts, bytes of completed transfers, ticks. */
  function Observed(s: SocState, op: Op): Counts {
    match op
    case Rd(addr) =>
      var (_, r) := BusRead(s, addr);
      Counts(0, if addr % 4 == 0 then 1 else 0, 0,
             if addr == INTC_ACK && r.Some? && r.value != NO_LINE then 1 else 0,
             if r.None? then 1 else 0)
    case Wr(addr, v) =>
      var (_, r) := BusWrite(s, addr, v);
      Counts(0, if addr % 4 == 0 then 1 else 0, 0, 0,
             (if r != Ok then 1 else 0) + (if addr == DMA_CTRL && Bit0(v) && s.dma.phase.Busy? then 1 else 0))
    case Step =>
      Counts(1, 0, if s.dma.phase.Busy? && Tick(s).dma.phase.Done? then s.dma.len else 0, 0, 0)
    case _ => NOTHING
  }

  function Total(s: SocState, ops: seq<Op>): Counts
    decreases |ops|
  {
    if ops == [] then NOTHING
    else Total(s, ops[..|ops| - 1]).Plus(Observed(Run(s, ops[..|ops| - 1]), ops[|ops| - 1]))
  }

  /** The operation does not write a counter or the counters' control. */
  predicate KeepsPerf(op: Op) {
    op.Wr? ==> VlabWindow(op.addr) != 6
  }

  lemma CountsAdd(p: PerfState, irqs: nat, stalls: nat)
    ensures Count(Count(p, ACCESS), NOTHING.(irqCount := irqs, stalls := stalls))
         == Count(p, Counts(0, 1, 0, irqs, stalls))
    ensures Count(Count(p, ACCESS), NOTHING) == Count(p, ACCESS)
  {
    CountTwice(p, ACCESS, NOTHING.(irqCount := irqs, stalls := stalls));
    CountNothing(Count(p, ACCESS));
  }

  lemma ReadCounts(s: SocState, addr: u32)
    ensures BusRead(s, addr).0.perf == Count(s.perf, Observed(s, Rd(addr)))
  {
    hide Count, MemoryModel.ReadWord, ReadUart, TimerModel.ReadTimer, ReadDma, ReadPerf, Acked, Mask, Highest;
    CountsAdd(s.perf, 0, 0);
    CountsAdd(s.perf, 0, 1);
    CountsAdd(s.perf, 1, 0);
    if addr % 4 == 0 {
      VlabDecode(addr);
    }
  }

  lemma WriteCounts(s: SocState, addr: u32, v: u32)
    requires KeepsPerf(Wr(addr, v))
    ensures BusWrite(s, addr, v).0.perf == Count(s.perf, Observed(s, Wr(addr, v)))
  {
    if addr % 4 == 0 {
      VlabDecode(addr);
      WindowCounts(s, VlabWindow(addr), addr, v);
    }
  }

  lemma WindowCounts(s: SocState, k: int, addr: u32, v: u32)
    requires addr % 4 == 0 && Route(VlabMap(), addr) == VlabWindow(addr) == k != 6
    ensures BusWrite(s, addr, v).0.perf == Count(s.perf, Observed(s, Wr(addr, v)))
  {
    hide Count, MemoryModel.WriteWord, WriteUart, TimerModel.WriteTimer, StartDma, WriteIntc, Raise, Route, VlabMap;
    CountsAdd(s.perf, 0, 0);
    CountsAdd(s.perf, 0, 1);
  }

  /** Bytes are moved exactly by the tick that ends in DONE, and then the programmed length. */
  lemma MovedOnDone(d: DmaState, m: Bank, u: UartState)
    ensures var t := EngineTick(d, m, u);
            t.moved == if d.phase.Busy? && t.dma.phase.Done? then d.len else 0
  {
    hide Fetch, Deliver;
  }

  lemma TickParts(s: SocState)
    ensures var e := EngineTick(s.dma, s.sram, UartTick(s.uart));
            Tick(s).perf == Count(Count(s.perf, TICK), NOTHING.(dmaBytes := e.moved)) && Tick(s).dma == e.dma
  {
    hide Count, UartTick, TimerModel.TimerTick, EngineTick, Completes, TimerModel.Expires;
  }

  lemma TickThenMoved(p: PerfState, moved: nat)
    ensures Count(Count(p, TICK), NOTHING.(dmaBytes := moved)) == Count(p, Counts(1, 0, moved, 0, 0))
  {
    hide Count;
    CountTwice(p, TICK, NOTHING.(dmaBytes := moved));
    assert TICK.Plus(NOTHING.(dmaBytes := moved)) == Counts(1, 0, moved, 0, 0);
  }

  lemma TickCountsOne(s: SocState)
    ensures Tick(s).perf == Count(s.perf, Observed(s, Step))
  {
    hide Count, UartTick, EngineTick, Tick, BusRead, BusWrite;
    TickParts(s);
    MovedOnDone(s.dma, s.sram, UartTick(s.uart));
    TickThenMoved(s.perf, EngineTick(s.dma, s.sram, UartTick(s.uart)).moved);
  }

  lemma StepCounts(s: SocState, op: Op)
    requires KeepsPerf(op)
    ensures Exec(s, op).perf == Count(s.perf, Observed(s, op))
  {
    hide Count, Tick, BusRead, BusWrite;
    CountNothing(s.perf);
    match op
    case Rd(addr) => ReadCounts(s, addr);
    case Wr(addr, v) => WriteCounts(s, addr, v);
    case Step => TickCountsOne(s);
    case _ =>
  }

  /** Over every run that does not write the counters, each one advances, modulo 2^32, by the total of what was
      observed; while disabled none of them moves. */
  lemma {:induction false} CountersAreExact(s: SocState, ops: seq<Op>)
    requires forall i :: 0 <= i < |ops| ==> KeepsPerf(ops[i])
    ensures Run(s, ops).perf == Count(s.perf, Total(s, ops))
    decreases |ops|
  {
    hide Count, Exec, Observed;
    if ops == [] {
      CountNothing(s.perf);
    } else {
      var init, last := ops[..|ops| - 1], ops[|ops| - 1];
      CountersAreExact(s, init);
      StepCounts(Run(s, init), last);
      CountTwice(s.perf, Total(s, init), Observed(Run(s, init), last));
    }
  }

  /** What software reads from the counters after such a run with counting enabled: what it started with plus the total,
      modulo 2^32, the read of MEM_ACC counting itself; with counting disabled, what it started with. */
  lemma CountersRead(s: SocState, ops: seq<Op>)
    requires forall i :: 0 <= i < |ops| ==> KeepsPerf(ops[i])
    ensures var t, p, n := Run(s, ops), s.perf, if s.perf.enabled then Total(s, ops) else NOTHING;
            && Peek(t, PERF_CYCLES) == Some((p.cycles + n.cycles) % POW32)
            && Peek(t, PERF_MEM_ACC) == Some((p.memAcc + n.memAcc + if p.enabled then 1 else 0) % POW32)
            && Peek(t, PERF_DMA_BYTES) == Some((p.dmaBytes + n.dmaBytes) % POW32)
            && Peek(t, PERF_IRQ_COUNT) == Some((p.irqCount + n.irqCount) % POW32)
            && Peek(t, PERF_STALLS) == Some((p.stalls + n.stalls) % POW32)
            && Peek(t, PERF_CTRL) == Some(p.ctrl)
  {
    hide Run, Total, Peek, Count, KeepsPerf;
    CountersAreExact(s, ops);
    PerfShows(Run(s, ops));
    var p, n := s.perf, Total(s, ops);
    Counted(p, n);
    WrapAdd(p.memAcc + n.memAcc, 1);
  }

  lemma Counted(p: PerfState, n: Counts)
    ensures Count(p, n) == if !p.enabled then p
                           else PerfState((p.cycles + n.cycles) % POW32, (p.memAcc + n.memAcc) % POW32,
                                          (p.dmaBytes + n.dmaBytes) % POW32, (p.irqCount + n.irqCount) % POW32,
                                          (p.stalls + n.stalls) % POW32, true, p.ctrl)
  {
  }
}
