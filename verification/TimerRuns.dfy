/** The timer inside the SoC: its closed forms hold in every run of the machine that leaves its registers alone. */
module TimerRunTheorems {
  import opened Words
  import opened Platform
  import opened Bus
  import opened IntcModel
  import opened TimerModel
  import opened UartModel
  import opened DmaModel
  import opened SocModel
  import opened Access
  import opened IntcHistory
  import opened IntcRunTheorems
  import opened TimerTheorems

  /** The operation does not write a timer register. */
  predicate TimerAlone(op: Op) {
    op.Wr? ==> VlabWindow(op.addr) != 3
  }

  function TicksIn(ops: seq<Op>): nat
    decreases |ops|
  {
    if ops == [] then 0 else TicksIn(ops[..|ops| - 1]) + if ops[|ops| - 1].Step? then 1 else 0
  }

  lemma TimerStep(s: SocState, op: Op)
    requires TimerAlone(op)
    ensures Exec(s, op).timer == if op.Step? then TimerTick(s.timer) else s.timer
  {
    hide TimerTick;
    match op
    case Step => hide UartTick, EngineTick, PerfModel.Count;
    case Rd(addr) => ReadFrame(s, addr);
    case Wr(addr, v) =>
      hide BusWrite;
      WriteFrame(s, addr, v);
    case _ =>
  }

  /** Whatever else the machine does, its timer is the closed form of as many ticks as the run has. */
  lemma {:induction false} SocTimer(s: SocState, ops: seq<Op>)
    requires forall i :: 0 <= i < |ops| ==> TimerAlone(ops[i])
    ensures Run(s, ops).timer == RunTicks(s.timer, TicksIn(ops))
    decreases |ops|
  {
    hide Exec, TimerTick, TimerAlone;
    if ops != [] {
      SocTimer(s, ops[..|ops| - 1]);
      TimerStep(Run(s, ops[..|ops| - 1]), ops[|ops| - 1]);
    }
  }

  /** The timer expires on this operation and asks for its interrupt. */
  predicate Announces(s: SocState, op: Op) {
    op.Step? && Expires(s.timer) && s.timer.IrqEnabled()
  }

  lemma {:induction false} RaisesAdd(a: seq<IntcOp>, b: seq<IntcOp>, l: Line)
    ensures RaiseCount(a + b, l) == RaiseCount(a, l) + RaiseCount(b, l)
    decreases |b|
  {
    if b == [] {
      assert a + b == a;
    } else {
      assert (a + b)[..|a + b| - 1] == a + b[..|b| - 1];
      RaisesAdd(a, b[..|b| - 1], l);
    }
  }

  lemma RaisesOfOne(op: IntcOp, l: Line)
    ensures RaiseCount([op], l) == if op == Arrive(l) then 1 else 0
  {
    assert [op][..0] == [];
  }

  lemma RaisesMaybe(c: bool, line: Line, l: Line)
    ensures RaiseCount(if c then [Arrive(line)] else [], l) == if c && line == l then 1 else 0
  {
    RaisesOfOne(Arrive(line), l);
  }

  lemma TimerRaisesOnce(s: SocState, op: Op)
    requires op != RaiseLine(IRQ_TIMER)
    ensures RaiseCount(IntcPart(s, op), IRQ_TIMER) == if Announces(s, op) then 1 else 0
  {
    hide RaiseCount, EngineTick, Completes, Expires, StartRaises;
    RaisesMaybe(false, IRQ_TIMER, IRQ_TIMER);
    match op
    case Step =>
      var c0, c1 := Completes(s.uart), Expires(s.timer) && s.timer.IrqEnabled();
      var c2 := EngineTick(s.dma, s.sram, UartTick(s.uart)).raised;
      var p0: seq<IntcOp> := if c0 then [Arrive(IRQ_UART)] else [];
      var p1: seq<IntcOp> := if c1 then [Arrive(IRQ_TIMER)] else [];
      var p2: seq<IntcOp> := if c2 then [Arrive(IRQ_DMA)] else [];
      RaisesMaybe(c0, IRQ_UART, IRQ_TIMER);
      RaisesMaybe(c1, IRQ_TIMER, IRQ_TIMER);
      RaisesMaybe(c2, IRQ_DMA, IRQ_TIMER);
      RaisesAdd(p0, p1, IRQ_TIMER);
      RaisesAdd(p0 + p1, p2, IRQ_TIMER);
    case Rd(addr) => RaisesOfOne(Load(Wrap(addr - INTC_BASE)), IRQ_TIMER);
    case Wr(addr, v) =>
      RaisesOfOne(Store(Wrap(addr - INTC_BASE), v), IRQ_TIMER);
      RaisesOfOne(Arrive(IRQ_DMA), IRQ_TIMER);
    case RaiseLine(line) => RaisesOfOne(Arrive(line), IRQ_TIMER);
    case _ =>
  }

  /** In every run of the machine without a foreign raise of its line, ACKs included, the timer raises line 1 exactly once per
      expiry of the closed form if it asks for interrupts, and never otherwise. */
  lemma {:induction false} SocTimerRaises(s: SocState, ops: seq<Op>)
    requires forall i :: 0 <= i < |ops| ==> TimerAlone(ops[i]) && ops[i] != RaiseLine(IRQ_TIMER)
    ensures RaiseCount(IntcTrace(s, ops), IRQ_TIMER)
         == if s.timer.IrqEnabled() then Expiries(s.timer, TicksIn(ops)) else 0
    decreases |ops|
  {
    hide Exec, Expires, IntcPart, TimerAlone, RaiseCount, TimerTick;
    if ops == [] {
      RaisesMaybe(false, IRQ_TIMER, IRQ_TIMER);
    } else {
      var init, last := ops[..|ops| - 1], ops[|ops| - 1];
      SocTimerRaises(s, init);
      SocTimer(s, init);
      IrqEnableStays(s.timer, TicksIn(init));
      TimerRaisesOnce(Run(s, init), last);
      RaisesAdd(IntcTrace(s, init), IntcPart(Run(s, init), last), IRQ_TIMER);
    }
  }

  lemma {:induction false} UnackedStays(i: IntcState, ops: seq<IntcOp>, l: Line)
    requires forall k :: 0 <= k < |ops| ==> ops[k] != Load(INTC_ACK_OFF)
    ensures l in After(i, ops).pending <==> (l in i.pending || RaiseCount(ops, l) > 0)
    decreases |ops|
  {
    hide Do;
    if ops != [] {
      UnackedStays(i, ops[..|ops| - 1], l);
      PendingStep(After(i, ops[..|ops| - 1]), ops[|ops| - 1], l);
    }
  }

  lemma NoAckTrace(s: SocState, op: Op)
    requires op != Rd(INTC_ACK)
    ensures forall k :: 0 <= k < |IntcPart(s, op)| ==> IntcPart(s, op)[k] != Load(INTC_ACK_OFF)
  {
  }

  lemma {:induction false} NoAckTraces(s: SocState, ops: seq<Op>)
    requires forall i :: 0 <= i < |ops| ==> ops[i] != Rd(INTC_ACK)
    ensures forall k :: 0 <= k < |IntcTrace(s, ops)| ==> IntcTrace(s, ops)[k] != Load(INTC_ACK_OFF)
    decreases |ops|
  {
    hide IntcPart, Exec;
    if ops != [] {
      NoAckTraces(s, ops[..|ops| - 1]);
      NoAckTrace(Run(s, ops[..|ops| - 1]), ops[|ops| - 1]);
    }
  }

  /** Without an ACK any number of expiries leaves exactly one thing behind: line 1 is pending afterwards if and only if it
      was before, or the timer asks for interrupts and has expired at least once. */
  lemma ExpiriesCoalesce(s: SocState, ops: seq<Op>)
    requires forall i :: 0 <= i < |ops| ==> TimerAlone(ops[i]) && ops[i] != RaiseLine(IRQ_TIMER) && ops[i] != Rd(INTC_ACK)
    ensures IRQ_TIMER in Run(s, ops).intc.pending
       <==> (IRQ_TIMER in s.intc.pending || (s.timer.IrqEnabled() && Expiries(s.timer, TicksIn(ops)) > 0))
  {
    hide Run, IntcTrace, RaiseCount, IntcHistory.After, Expiries;
    SocTimerRaises(s, ops);
    IntcRun(s, ops);
    NoAckTraces(s, ops);
    UnackedStays(s.intc, IntcTrace(s, ops), IRQ_TIMER);
  }

  /** A periodic timer started from VALUE 0 in the running machine: after n ticks and anything else, VALUE is what the closed
      form says, n / LOAD interrupts were raised, and its ACKs never outnumber them. */
  lemma PeriodicInterrupts(s: SocState, ops: seq<Op>)
    requires s.timer.Enabled() && s.timer.Periodic() && s.timer.IrqEnabled() && s.timer.value == s.timer.load > 0
    requires s.intc.pending == {}
    requires forall i :: 0 <= i < |ops| ==> TimerAlone(ops[i]) && ops[i] != RaiseLine(IRQ_TIMER)
    ensures var n, l := TicksIn(ops), s.timer.load;
            && Run(s, ops).timer.value == l - n % l
            && RaiseCount(IntcTrace(s, ops), IRQ_TIMER) == n / l
            && AckCount(s.intc, IntcTrace(s, ops), IRQ_TIMER)
               + (if IRQ_TIMER in Run(s, ops).intc.pending then 1 else 0) <= n / l
  {
    hide Run, IntcTrace, RaiseCount, AckCount, RaisedSinceAck, Expiries, RunTicks;
    var n, l := TicksIn(ops), s.timer.load;
    SocTimer(s, ops);
    SocTimerRaises(s, ops);
    SocInterruptsConserved(s, ops, IRQ_TIMER);
    PeriodicForm(s.timer, n);
    FullPeriods(n, l);
  }
}
