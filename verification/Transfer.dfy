/**
 The countdown refines an atomic transfer: exact completion ticks, memory as by
 memmove, harmless failures, and the interrupt fixed at START.
 */
module TransferTheorems {
  import opened Words
  import opened Platform
  import opened Bus
  import opened MemoryModel
  import opened PerfModel
  import opened UartModel
  import opened DmaModel
  import opened SocModel
  import opened Hal
  import opened Validators
  import opened Timing
  import opened Access
  import opened LifecycleTheorems

  // ---- exact timing, through any operations whatsoever ----

  /** Ticks of the run at which the engine was not frozen. */
  function UnfrozenTicks(s: SocState, ops: seq<Op>): nat
    decreases |ops|
  {
    if ops == [] then 0
    else
      var init, last := ops[..|ops| - 1], ops[|ops| - 1];
      UnfrozenTicks(s, init) + if last.Step? && !Run(s, init).dma.stuck then 1 else 0
  }

  /** No operation but a tick moves a busy engine: not START, IRQ_CLEAR, rewrites or fault latches. */
  lemma BusyStep(s: SocState, op: Op)
    requires s.dma.phase.Busy?
    ensures var t := Exec(s, op);
            if op.Step? then CountsDown(s.dma, t.dma)
            else t.dma.phase == s.dma.phase && t.dma.cfg == s.dma.cfg
  {
    hide BusWrite, BusRead, Tick;
    match op
    case Step => TickCounts(s);
    case Rd(addr) => ReadFrame(s, addr);
    case Wr(addr, v) => EngineWrite(s, addr, v);
    case _ =>
  }

  /** The engine after a bus write: its own register write, if the address is one of its registers. */
  lemma EngineWrite(s: SocState, addr: u32, v: u32)
    ensures BusWrite(s, addr, v).0.dma == WrittenDma(s.dma, addr, v)
  {
    hide WriteDma;
    if VlabWindow(addr) == 4 && addr % 4 == 0 {
      VlabDecode(addr);
    } else {
      hide BusWrite;
      WriteFrame(s, addr, v);
    }
  }

  function WrittenDma(d: DmaState, addr: u32, v: u32): DmaState {
    if VlabWindow(addr) == 4 && addr % 4 == 0 && WriteDma(d, addr - DMA_BASE, v).Some?
    then WriteDma(d, addr - DMA_BASE, v).value else d
  }

  /** While busy, the remaining count is the initial count minus the unfrozen ticks so far. */
  lemma {:induction false} CountdownOverRun(s: SocState, ops: seq<Op>)
    requires s.dma.phase.Busy?
    ensures UnfrozenTicks(s, ops) < s.dma.phase.remaining ==>
              Run(s, ops).dma.phase
                == Phase.Busy(s.dma.phase.remaining - UnfrozenTicks(s, ops), s.dma.phase.irq)
    decreases |ops|
  {
    hide Exec;
    if ops != [] {
      CountdownOverRun(s, ops[..|ops| - 1]);
      if UnfrozenTicks(s, ops) < s.dma.phase.remaining {
        BusyStep(Run(s, ops[..|ops| - 1]), ops[|ops| - 1]);
      }
    }
  }

  /** A raw START of the programmed registers: refused with the verdict, or busy with the countdown. */
  lemma StartOutcome(s: SocState, v: u32)
    requires Bit0(v) && !s.dma.phase.Busy?
    ensures var t := Exec(s, Wr(DMA_CTRL, v));
            var code := Verdict(s.dma.cfg, s.dma.src, s.dma.dst, s.dma.len);
            && SameButPerf(s.(dma := t.dma, intc := RaiseIf(s.intc, Bit1(v) && code != ERR_NONE, IRQ_DMA)), t)
            && t.dma == s.dma.(ctrl := v - 1,
                               phase := if code != ERR_NONE then Failed(code)
                                        else Phase.Busy(Countdown(s.dma.cfg, s.dma.len), Bit1(v)))
  {
    hide Verdict, Countdown, HalWrite;
    DmaWrite(s, DMA_CTRL, v);
    WriteOp(s, DMA_CTRL, v);
  }

  /** An accepted transfer ends on precisely the documented tick, counting only unfrozen ticks, whatever
      else happens: k ticks before that it is still busy with the difference left. */
  lemma ExactTiming(s: SocState, v: u32, ops: seq<Op>)
    requires Bit0(v) && !s.dma.phase.Busy? && IsVlab(s.dma.cfg)
    requires VlabTransfer(s.dma.src, s.dma.dst, s.dma.len)
    requires TimingFits(s.dma.cfg, s.dma.len)
    ensures var started := Exec(s, Wr(DMA_CTRL, v));
            var total := TransferTicks(s.dma.len / 4, s.dma.cfg.latency, s.dma.cfg.burst);
            var k := UnfrozenTicks(started, ops);
            var t := Run(started, ops);
            && (k < total ==> t.dma.phase == Phase.Busy(total - k, Bit1(v)))
            && (k == total - 1 && !t.dma.stuck ==> !Exec(t, Step).dma.phase.Busy?)
  {
    hide Exec, Run, Verdict, Countdown, TransferTicks;
    VlabAccepts(s.dma.cfg, s.dma.src, s.dma.dst, s.dma.len);
    StartOutcome(s, v);
    CountdownExact(s.dma.cfg, s.dma.len);
    assert WordsOf(s.dma.len) == s.dma.len / 4;
    var started := Exec(s, Wr(DMA_CTRL, v));
    CountdownOverRun(started, ops);
    if UnfrozenTicks(started, ops) < started.dma.phase.remaining {
      BusyStep(Run(started, ops), Step);
    }
  }

  function Steps(n: nat): seq<Op> {
    seq(n, _ => Step)
  }

  lemma {:induction false} StepsAreTicks(s: SocState, n: nat)
    requires !s.dma.stuck
    ensures Run(s, Steps(n)) == Ticks(s, n) && UnfrozenTicks(s, Steps(n)) == n && !Ticks(s, n).dma.stuck
    decreases n
  {
    hide Tick;
    if n > 0 {
      StepsAreTicks(s, n - 1);
      assert Steps(n)[..n - 1] == Steps(n - 1);
      TickCounts(Ticks(s, n - 1));
      NeverSticks(Ticks(s, n - 1));
    }
  }

  /** Setting the fault latch freezes a transfer whatever number of ticks passes, and dropping it lets the transfer go on with
      the ticks it still had. */
  lemma FrozenEngineWaits(s: SocState, n: nat)
    requires s.dma.phase.Busy?
    ensures var frozen := Exec(s, StickDma(true));
            && Ticks(frozen, n).dma == frozen.dma == s.dma.(stuck := true)
            && Exec(Ticks(frozen, n), StickDma(false)).dma == s.dma.(stuck := false)
            && UnfrozenTicks(frozen, Steps(n)) == 0
  {
    hide Tick;
    FrozenTicks(Exec(s, StickDma(true)), n);
  }

  lemma {:induction false} FrozenTicks(s: SocState, n: nat)
    requires s.dma.stuck
    ensures Ticks(s, n).dma == s.dma && Run(s, Steps(n)) == Ticks(s, n) && UnfrozenTicks(s, Steps(n)) == 0
    decreases n
  {
    hide Tick;
    if n > 0 {
      FrozenTicks(s, n - 1);
      assert Steps(n)[..n - 1] == Steps(n - 1);
      TickCounts(Ticks(s, n - 1));
    }
  }

  lemma NeverSticks(s: SocState)
    ensures Tick(s).dma.stuck == s.dma.stuck
  {
    TickCounts(s);
  }

  /** Stepping an unfrozen engine until STATUS shows a terminal flag takes exactly the documented number of ticks. */
  lemma TicksToTerminal(s: SocState, v: u32, k: nat)
    requires Bit0(v) && !s.dma.phase.Busy? && !s.dma.stuck && IsVlab(s.dma.cfg)
    requires VlabTransfer(s.dma.src, s.dma.dst, s.dma.len)
    requires TimingFits(s.dma.cfg, s.dma.len)
    requires k <= TransferTicks(s.dma.len / 4, s.dma.cfg.latency, s.dma.cfg.burst)
    ensures var st := StatusOf(Ticks(Exec(s, Wr(DMA_CTRL, v)), k).dma.phase);
            (st == 2 || st == 4) <==> k == TransferTicks(s.dma.len / 4, s.dma.cfg.latency, s.dma.cfg.burst)
  {
    hide Exec, Run, Tick, Verdict, Countdown, TransferTicks, TimingFits;
    var started := Exec(s, Wr(DMA_CTRL, v));
    VlabAccepts(s.dma.cfg, s.dma.src, s.dma.dst, s.dma.len);
    StartOutcome(s, v);
    CountdownExact(s.dma.cfg, s.dma.len);
    assert WordsOf(s.dma.len) == s.dma.len / 4;
    CountdownRuns(started, k);
  }

  lemma CountdownRuns(s: SocState, k: nat)
    requires s.dma.phase.Busy? && !s.dma.stuck && s.dma.phase.remaining >= 1 && k <= s.dma.phase.remaining
    ensures var p := Ticks(s, k).dma.phase;
            if k < s.dma.phase.remaining then p.Busy? else p.Done? || p.Failed?
  {
    hide Tick, Run;
    if k < s.dma.phase.remaining {
      StepsAreTicks(s, k);
      CountdownOverRun(s, Steps(k));
    } else {
      StepsAreTicks(s, k - 1);
      CountdownOverRun(s, Steps(k - 1));
      TickCounts(Ticks(s, k - 1));
    }
  }

  // ---- the engine over every register trace ----

  predicate EngineConsistent(d: DmaState) {
    && !Bit0(d.ctrl)
    && (d.phase.Busy? ==> 1 <= d.phase.remaining < POW31)
    && (d.phase.Failed? ==> ERR_ADDR <= d.phase.code <= ERR_UNSUPPORTED)
  }

  lemma EngineConsistentStep(s: SocState, op: Op)
    requires EngineConsistent(s.dma)
    ensures EngineConsistent(Exec(s, op).dma)
  {
    hide Verdict, Countdown, BusWrite, BusRead, Tick;
    ValidatorsAgree(s.dma.cfg, s.dma.src, s.dma.dst, s.dma.len);
    match op
    case Step => TickCounts(s);
    case Rd(addr) => ReadFrame(s, addr);
    case Wr(addr, v) => EngineWrite(s, addr, v);
    case _ =>
  }

  /** Over every run from an idle engine STATUS shows at most one flag, ERR_CODE is nonzero exactly with
      ERROR, a busy engine has ticks left, and CTRL never shows START. */
  lemma {:induction false} EngineOverRuns(s: SocState, ops: seq<Op>)
    requires EngineConsistent(s.dma)
    ensures var d := Run(s, ops).dma;
            EngineConsistent(d)
            && (var st := ReadDma(d, DMA_STATUS_OFF).value; st == 0 || st == 1 || st == 2 || st == 4)
            && (ReadDma(d, DMA_ERR_CODE_OFF).value != 0 <==> ReadDma(d, DMA_STATUS_OFF).value == 4)
    decreases |ops|
  {
    if ops != [] {
      EngineOverRuns(s, ops[..|ops| - 1]);
      EngineConsistentStep(Run(s, ops[..|ops| - 1]), ops[|ops| - 1]);
    }
  }

  /** The operation is a START that is not ignored. */
  predicate TakenStart(s: SocState, op: Op) {
    op.Wr? && op.addr == DMA_CTRL && Bit0(op.value) && !s.dma.phase.Busy?
  }

  /** IRQ_ENABLE of the last START that was not ignored. */
  function IrqOfStart(s: SocState, ops: seq<Op>): bool
    decreases |ops|
  {
    if ops == [] then s.dma.phase.Busy? && s.dma.phase.irq
    else
      var init, last := ops[..|ops| - 1], ops[|ops| - 1];
      if TakenStart(Run(s, init), last) then Bit1(last.value) else IrqOfStart(s, init)
  }

  /** The operation ends a transfer: a refused START, or the tick that finishes it. */
  predicate Terminal(s: SocState, op: Op) {
    || (TakenStart(s, op) && Exec(s, op).dma.phase.Failed?)
    || (s.dma.phase.Busy? && !Exec(s, op).dma.phase.Busy?)
  }

  lemma {:induction false} LatchedIrq(s: SocState, ops: seq<Op>)
    ensures Run(s, ops).dma.phase.Busy? ==> Run(s, ops).dma.phase.irq == IrqOfStart(s, ops)
    decreases |ops|
  {
    if ops != [] {
      var init, last := ops[..|ops| - 1], ops[|ops| - 1];
      LatchedIrq(s, init);
      var t := Run(s, init);
      if TakenStart(t, last) {
        StartOutcome(t, last.value);
      } else if t.dma.phase.Busy? {
        BusyStep(t, last);
      } else {
        SettledStep(t, last);
      }
    }
  }

  /** Without a START a settled engine does not become busy. */
  lemma SettledStep(s: SocState, op: Op)
    requires !s.dma.phase.Busy? && !TakenStart(s, op)
    ensures !Exec(s, op).dma.phase.Busy?
  {
    hide BusWrite, BusRead, Tick;
    match op
    case Step => TickCounts(s);
    case Rd(addr) => ReadFrame(s, addr);
    case Wr(addr, v) => EngineWrite(s, addr, v);
    case _ =>
  }

  lemma TickRaises(s: SocState)
    requires s.dma.phase.Busy? && !Tick(s).dma.phase.Busy?
    ensures IRQ_DMA in Tick(s).intc.pending <==> IRQ_DMA in s.intc.pending || s.dma.phase.irq
  {
    hide Fetch, Deliver, UartTick, TimerModel.TimerTick, Count;
  }

  /** In every run, the operation that ends a transfer raises the line exactly when IRQ_ENABLE was given
      at the START of that transfer, whatever was written to CTRL since. */
  lemma TerminalRaisesIffAsked(s: SocState, ops: seq<Op>, op: Op)
    requires Terminal(Run(s, ops), op)
    ensures var t := Run(s, ops);
            IRQ_DMA in Exec(t, op).intc.pending <==> (IRQ_DMA in t.intc.pending || IrqOfStart(s, ops + [op]))
  {
    var t := Run(s, ops);
    assert (ops + [op])[..|ops|] == ops;
    LatchedIrq(s, ops);
    if TakenStart(t, op) {
      StartOutcome(t, op.value);
    } else {
      BusyStep(t, op);
      TickRaises(t);
    }
  }

  // ---- what a completing tick does ----

  /** The tick runs the countdown out. */
  predicate Completing(s: SocState) {
    s.dma.phase.Busy? && s.dma.phase.remaining <= 1 && !s.dma.stuck
  }

  /** The engine fails exactly when an end that is not a stream lies outside SRAM; then SRAM and the byte
      counter are untouched and the code is 1. The RX stream is the exception: it may already be drained. */
  lemma FailureIsHarmless(s: SocState)
    requires WellFormed(s) && Completing(s)
    ensures var t, d := Tick(s), s.dma;
            && (t.dma.phase.Failed? <==> (|| (d.src != UART_RXDATA && !Holds(s.sram, d.src, d.len))
                                          || (d.dst != UART_TXDATA && !Holds(s.sram, d.dst, d.len))))
            && (t.dma.phase.Failed? ==>
                  && t.dma.phase.code == ERR_ADDR && t.sram == s.sram && t.perf.dmaBytes == s.perf.dmaBytes
                  && t.uart == if d.src == UART_RXDATA then AfterDrain(UartTick(s.uart), d.len) else UartTick(s.uart))
            && (t.dma.phase.Failed? ==>
                  (t.uart == UartTick(s.uart) <==> d.src != UART_RXDATA || d.len == 0 || UartTick(s.uart).rx == []))
  {
    hide UartTick, TimerModel.TimerTick, Splice;
  }

  /** In numbers: after registers were rewritten a transfer fails exactly if LEN is now 0 or a memory end runs out of SRAM;
      a stream end never fails. */
  lemma FailsOutsideSram(s: SocState)
    requires WellFormed(s) && Completing(s)
    ensures var d := s.dma;
            (Tick(s).dma.phase.Failed?)
              <==> ((d.src != UART_RXDATA && (d.len == 0 || !InSram(d.src, d.len)))
                    || (d.dst != UART_TXDATA && (d.len == 0 || !InSram(d.dst, d.len))))
  {
    hide Tick;
    FailureIsHarmless(s);
  }

  lemma StartMovesNothing(s: SocState, v: u32)
    ensures Exec(s, Wr(DMA_CTRL, v)).perf.dmaBytes == s.perf.dmaBytes
  {
    hide StartDma, StartRaises;
    VlabDecode(DMA_CTRL);
  }

  /** Every failure, at START or at completion, leaves SRAM and the count of moved bytes as they were. */
  lemma FailingStepKeepsMemory(s: SocState, op: Op)
    requires WellFormed(s) && Terminal(s, op) && Exec(s, op).dma.phase.Failed?
    ensures var t := Exec(s, op);
            t.sram == s.sram && t.perf.dmaBytes == s.perf.dmaBytes && (op.Step? ==> t.dma.phase.code == ERR_ADDR)
  {
    if TakenStart(s, op) {
      StartOutcome(s, op.value);
      StartMovesNothing(s, op.value);
    } else {
      BusyStep(s, op);
      if op.Step? {
        TickCounts(s);
        FailureIsHarmless(s);
      }
    }
  }

  /** C11 memmove: the n destination bytes become the old source bytes, for every overlap; the rest stays. */
  predicate Memmove(before: seq<byte>, after: seq<byte>, src: nat, dst: nat, n: nat) {
    && src + n <= |before| && dst + n <= |before| && |after| == |before|
    && forall i :: 0 <= i < |before| ==>
         after[i] == if dst <= i < dst + n then before[src + (i - dst)] else before[i]
  }

  /** The effect of a whole transfer between the machine before and after its last tick: SRAM to SRAM as memmove
      does on the contents of that moment, SRAM bytes appended to the stream, or what a drain delivers stored. */
  predicate Transferred(s: SocState, t: SocState) {
    var d, u := s.dma, UartTick(s.uart);
    && t.dma == d.(phase := Phase.Done)
    && (InSram(d.src, d.len) && InSram(d.dst, d.len) ==>
          Memmove(s.sram.data, t.sram.data, d.src - SRAM_BASE, d.dst - SRAM_BASE, d.len) && t.uart == u)
    && (d.dst == UART_TXDATA ==>
          var data := ReadBytes(s.sram, d.src, d.len);
          data.Some? && t.uart == Append(u, data.value) && t.sram == s.sram)
    && (d.src == UART_RXDATA ==>
          t.uart == AfterDrain(u, d.len) && WriteBytes(s.sram, d.dst, Delivered(u, d.len)) == Some(t.sram))
  }

  /** On VLAB an accepted transfer cannot fail: its last tick performs it. */
  lemma AcceptedCompletes(s: SocState)
    requires WellFormed(s) && Completing(s) && VlabTransfer(s.dma.src, s.dma.dst, s.dma.len)
    ensures Transferred(s, Tick(s))
  {
    hide UartTick, TimerModel.TimerTick, Count, Append, AfterDrain, Delivered;
  }
}
