/**
 The coupling of driver, engine and interrupt controller over every run, and exactly
 which actions keep it.
 */
module LifecycleTheorems {
  import opened Words
  import opened Platform
  import opened IntcModel
  import opened UartModel
  import opened DmaModel
  import opened SocModel
  import opened Hal
  import opened DmaDriverModel
  import opened IsrModel
  import opened Validators
  import opened Access
  import opened Bus
  import opened BootTheorems

  // ---- what clients may do ----

  /** Every operation except reading ACK, writing IRQ_CLEAR and issuing a raw START. Rewrites of SRC, DST
      and LEN, interrupt masking, fault latches and outside interrupts are all included. */
  predicate Polite(op: Op) {
    match op
    case Rd(addr) => addr != INTC_ACK
    case Wr(addr, v) => addr != DMA_IRQ_CLEAR && !(addr == DMA_CTRL && Bit0(v))
    case _ => true
  }

  predicate AllPolite(ops: seq<Op>) {
    forall i :: 0 <= i < |ops| ==> Polite(ops[i])
  }

  /** The DMA line is configured and has its handler. */
  predicate Wired(i: IsrState) {
    i.nLines >= 3 && i.vectors[IRQ_DMA].DmaHandler?
  }

  ghost predicate PoliteHandlers(i: IsrState) {
    forall k :: 0 <= k < MAX_LINES && i.vectors[k].Foreign? ==>
      forall s: SocState :: AllPolite(i.vectors[k].behave(s))
  }

  /** A dispatcher wired for the DMA, with foreign handlers that are polite. */
  ghost predicate Tame(i: IsrState) {
    Wired(i) && PoliteHandlers(i)
  }

  datatype Action =
    | Soc(op: Op)
    | SubmitIrq(src: u32, dst: u32, len: u32)
    | DispatchAll
    | RecoverIdle
    | SubmitPolled(src: u32, dst: u32, len: u32)
    | StartDirect(src: u32, dst: u32, len: u32, irq: bool)
    | ResetDevices

  /** One client action: a machine operation, a call of the driver or the dispatcher, or a reset of the devices. */
  function Act(sys: Sys, a: Action): Sys {
    match a
    case Soc(op) => sys.(soc := Exec(sys.soc, op))
    case SubmitIrq(src, dst, len) =>
      var (d, s, _) := Submit(sys.drv, sys.soc, src, dst, len, true);
      sys.(drv := d, soc := s)
    case DispatchAll => Dispatch(sys).0
    case RecoverIdle =>
      var (d, s) := Recover(sys.drv, sys.soc);
      sys.(drv := d, soc := s)
    case SubmitPolled(src, dst, len) =>
      var (d, s, _) := Submit(sys.drv, sys.soc, src, dst, len, false);
      sys.(drv := d, soc := s)
    case StartDirect(src, dst, len, irq) =>
      sys.(soc := StartTransfer(sys.drv, sys.soc, src, dst, len, irq).0)
    case ResetDevices => sys.(soc := ResetAll(sys.soc))
  }

  /** What a client may do in any state without disturbing the lifecycle. */
  predicate Disciplined(a: Action) {
    match a
    case Soc(op) => Polite(op)
    case SubmitPolled(_, _, _) => false
    case StartDirect(_, _, _, _) => false
    case ResetDevices => false
    case _ => true
  }

  function Perform(sys: Sys, acts: seq<Action>): Sys
    decreases |acts|
  {
    if acts == [] then sys else Act(Perform(sys, acts[..|acts| - 1]), acts[|acts| - 1])
  }

  // ---- the invariant ----

  /** Driver and engine agree, apart from the pending bit. */
  ghost predicate Aligned(sys: Sys) {
    var d, e := sys.drv, sys.soc.dma.phase;
    && IsVlab(sys.soc.dma.cfg) && d.tables == VlabTables() && Tame(sys.isr)
    && (d.life.Idle? || d.life.Active? || d.life.Complete? || d.life.Error?)
    && (d.life.Active? <==> StatusOf(e) != 0)
    && (e.Busy? ==> e.irq && e.remaining >= 1)
    && (e.Failed? ==> e.code != ERR_NONE)
    && (d.doneFlag != 0 <==> d.life.Complete?)
    && (d.errLatch != 0 <==> d.life.Error?)
  }

  ghost predicate Coupled(sys: Sys) {
    && Aligned(sys)
    && (sys.drv.life.Active? && !sys.soc.dma.phase.Busy? ==> IRQ_DMA in sys.soc.intc.pending)
  }

  // ---- one SoC operation ----

  /** What a polite operation may do to engine and controller: keep the phase and every pending bit,
      or, if it is a tick, count down or finish and raise the line. */
  predicate PoliteStep(s: SocState, t: SocState, tick: bool) {
    && t.dma.cfg == s.dma.cfg
    && s.intc.pending <= t.intc.pending
    && (tick || t.dma.phase == s.dma.phase)
    && (tick ==> CountsDown(s.dma, t.dma) && (t.dma.phase == s.dma.phase
                                              || (t.dma.phase.Busy? && s.dma.phase.Busy? && t.dma.phase.irq == s.dma.phase.irq)
                                              || (s.dma.phase.Busy? && (s.dma.phase.irq ==> IRQ_DMA in t.intc.pending))))
  }

  /** The engine's part of a tick: nothing unless busy and unfrozen; then one tick less, or the end. */
  predicate CountsDown(d: DmaState, e: DmaState) {
    if !d.phase.Busy? || d.stuck then e == d
    else if d.phase.remaining > 1 then e == d.(phase := Phase.Busy(d.phase.remaining - 1, d.phase.irq))
    else e == d.(phase := Phase.Done) || e == d.(phase := Failed(ERR_ADDR))
  }

  lemma TickCounts(s: SocState)
    ensures CountsDown(s.dma, Tick(s).dma)
    ensures s.intc.pending <= Tick(s).intc.pending
    ensures s.intc.enable == Tick(s).intc.enable && s.intc.active == Tick(s).intc.active
    ensures s.dma.phase.Busy? && !Tick(s).dma.phase.Busy? && s.dma.phase.irq ==> IRQ_DMA in Tick(s).intc.pending
  {
    hide Fetch, Deliver, UartTick, TimerModel.TimerTick, PerfModel.Count;
  }

  lemma PoliteExec(s: SocState, op: Op)
    requires Polite(op)
    ensures PoliteStep(s, Exec(s, op), op.Step?)
  {
    match op
    case Step => TickCounts(s);
    case Rd(addr) => ReadFrame(s, addr);
    case Wr(addr, v) => PoliteWrite(s, addr, v);
    case _ =>
  }

  lemma PoliteWrite(s: SocState, addr: u32, v: u32)
    requires Polite(Wr(addr, v))
    ensures PoliteStep(s, BusWrite(s, addr, v).0, false)
  {
    var w := VlabWindow(addr);
    if addr % 4 != 0 || (w != 4 && w != 5) {
      hide BusWrite;
      WriteFrame(s, addr, v);
    } else if w == 4 {
      hide StartDma, Verdict;
      VlabDecode(addr);
    } else {
      VlabDecode(addr);
    }
  }

  lemma {:induction false} PoliteRun(s: SocState, ops: seq<Op>)
    requires AllPolite(ops) && IsVlab(s.dma.cfg)
    ensures var t := Run(s, ops);
            IsVlab(t.dma.cfg) && PhasesFollow(s, t)
    decreases |ops|
  {
    if ops != [] {
      var init, last := ops[..|ops| - 1], ops[|ops| - 1];
      PoliteRun(s, init);
      PoliteExec(Run(s, init), last);
    }
  }

  /** What any number of polite operations may do: keep every pending bit; leave a settled engine alone;
      let a busy one count down or end, raising its line if it was asked to. */
  predicate PhasesFollow(s: SocState, t: SocState) {
    && s.intc.pending <= t.intc.pending
    && (!s.dma.phase.Busy? ==> t.dma.phase == s.dma.phase)
    && (s.dma.phase.Busy? && s.dma.phase.remaining >= 1 ==>
          && StatusOf(t.dma.phase) != 0
          && (t.dma.phase.Busy? ==> t.dma.phase.irq == s.dma.phase.irq && t.dma.phase.remaining >= 1)
          && (t.dma.phase.Failed? ==> t.dma.phase.code == ERR_ADDR)
          && (!t.dma.phase.Busy? && s.dma.phase.irq ==> IRQ_DMA in t.intc.pending))
  }

  lemma FollowingKeepsCoupling(sys: Sys, t: SocState)
    requires Coupled(sys) && IsVlab(t.dma.cfg) && PhasesFollow(sys.soc, t)
    ensures Coupled(sys.(soc := t))
  {
  }

  /** Coupling does not depend on counters, memories, enables, ACTIVE bits or the programmed registers. */
  lemma CoupledElsewhere(sys: Sys, t: SocState)
    requires Coupled(sys) && t.dma.cfg == sys.soc.dma.cfg && t.dma.phase == sys.soc.dma.phase
    requires IRQ_DMA in sys.soc.intc.pending ==> IRQ_DMA in t.intc.pending
    ensures Coupled(sys.(soc := t))
  {
  }

  // ---- the handler ----

  /** The DMA handler turns a finished transfer into COMPLETE or ERROR with the right latch, and leaves
      everything else as it was: it re-establishes the coupling even though its line was acknowledged. */
  lemma IsrCouples(sys: Sys)
    requires Aligned(sys)
    ensures Coupled(Handle(DmaHandler, sys))
    ensures var d, s := Isr(sys.drv, sys.soc).0, Isr(sys.drv, sys.soc).1;
            && s.dma == FlagsCleared(sys.soc.dma)
            && s.intc == sys.soc.intc.(active := sys.soc.intc.active - {IRQ_DMA})
            && s.sram == sys.soc.sram && s.uart == sys.soc.uart && s.timer == sys.soc.timer
            && (sys.soc.dma.phase.Done? ==> d.life.Complete?)
            && (sys.soc.dma.phase.Failed? ==> d.life.Error? && d.errLatch == sys.soc.dma.phase.code)
            && (StatusOf(sys.soc.dma.phase) <= 1 ==> d.life == sys.drv.life)
  {
    hide HalRead, TwoStepClear;
    StatusRead(sys.soc);
    var s1 := HalRead(sys.soc, DMA_STATUS).0;
    ErrorRead(s1);
    TwoStepClears(Latch(sys.drv, sys.soc).1);
  }

  lemma StatusRead(s: SocState)
    ensures var (s1, v) := HalRead(s, DMA_STATUS); SameButPerf(s, s1) && v == StatusOf(s.dma.phase)
  {
    DmaRead(s, DMA_STATUS);
  }

  lemma ErrorRead(s: SocState)
    ensures var (s1, v) := HalRead(s, DMA_ERR_CODE); SameButPerf(s, s1) && v == ErrorOf(s.dma.phase)
  {
    DmaRead(s, DMA_ERR_CODE);
  }

  // ---- dispatch ----

  lemma RoundCouples(sys: Sys)
    requires Coupled(sys)
    ensures Coupled(Round(sys).0) && Round(sys).0.isr.vectors == sys.isr.vectors
  {
    hide HalRead, HalWrite, Isr, Run;
    AckRead(sys.soc);
    var (s1, line) := HalRead(sys.soc, INTC_ACK);
    var acked := sys.(soc := s1);
    if line < sys.isr.nLines {
      var h := sys.isr.vectors[line];
      var after := Handle(h, acked);
      ServedLine(sys, acked, line);
      ClearLine(after.soc, line);
      CoupledElsewhere(after, HalWrite(after.soc, INTC_CLEAR, line));
    } else {
      CoupledElsewhere(sys, s1);
    }
  }

  lemma ServedLine(sys: Sys, acked: Sys, line: u32)
    requires Coupled(sys) && acked == sys.(soc := acked.soc)
    requires SameButPerf(sys.soc.(intc := Acked(sys.soc.intc)), acked.soc)
    requires line == AckValue(sys.soc.intc) < sys.isr.nLines
    ensures Coupled(Handle(sys.isr.vectors[line], acked))
    ensures Handle(sys.isr.vectors[line], acked).isr == sys.isr
  {
    hide HalRead, Isr, Run;
    var h := sys.isr.vectors[line];
    if h.DmaHandler? {
      IsrCouples(acked);
    } else {
      assert line != IRQ_DMA;
      CoupledElsewhere(sys, acked.soc);
      if h.Foreign? {
        var ops := h.behave(acked.soc);
        PoliteRun(acked.soc, ops);
        FollowingKeepsCoupling(acked, Run(acked.soc, ops));
      }
    }
  }

  lemma {:induction false} RoundsCouple(sys: Sys, fuel: nat)
    requires Coupled(sys)
    ensures Coupled(Rounds(sys, fuel).0)
    decreases fuel
  {
    hide Round;
    RoundsUnfold(sys, fuel);
    if fuel > 0 {
      RoundCouples(sys);
      if Round(sys).1.Some? {
        RoundsCouple(Round(sys).0, fuel - 1);
      }
    }
  }

  // ---- submit and recover ----

  /** With or without IRQ: a transfer both sides accept makes the driver ACTIVE and the engine busy with the interrupt as
      asked for; anything the driver refuses touches neither the engine nor its own state. */
  lemma SubmitEffect(sys: Sys, src: u32, dst: u32, len: u32, irq: bool)
    requires Coupled(sys)
    ensures var (d, s, rc) := Submit(sys.drv, sys.soc, src, dst, len, irq);
            && (rc == DMA_OK <==> sys.drv.life.Idle? && VlabTransfer(src, dst, len))
            && (rc == DMA_OK ==>
                  && d == sys.drv.(life := Active, doneFlag := 0, errLatch := 0)
                  && SameButPerf(sys.soc.(dma := s.dma), s)
                  && s.dma == Programmed(sys.soc.dma, src, dst, len).(
                                ctrl := if irq then 2 else 0,
                                phase := Phase.Busy(Countdown(sys.soc.dma.cfg, len), irq)))
            && (rc != DMA_OK ==> d == sys.drv && SameButPerf(sys.soc, s))
  {
    hide HalRead, Program, Check, Verdict, VlabTransfer, Countdown;
    if sys.drv.life.Idle? {
      StatusRead(sys.soc);
      VlabAccepts(sys.soc.dma.cfg, src, dst, len);
      var s1 := HalRead(sys.soc, DMA_STATUS).0;
      ProgramStarts(s1, src, dst, len, irq);
    }
  }

  lemma RecoverEffect(sys: Sys)
    requires Coupled(sys)
    ensures var (d, s) := Recover(sys.drv, sys.soc);
            Coupled(sys.(drv := d, soc := s))
            && (sys.drv.life.Complete? || sys.drv.life.Error? ==>
                  d.life.Idle? && s.dma.phase.Idle? && IRQ_DMA !in s.intc.active && s.sram == sys.soc.sram)
            && (!(sys.drv.life.Complete? || sys.drv.life.Error?) ==> (d, s) == (sys.drv, sys.soc))
  {
    hide TwoStepClear;
    TwoStepClears(sys.soc);
  }

  // ---- every run ----

  lemma ActCouples(sys: Sys, a: Action)
    requires Coupled(sys) && Disciplined(a)
    ensures Coupled(Act(sys, a))
  {
    hide Exec, Submit, Rounds, Recover;
    match a
    case Soc(op) =>
      assert [op][..0] == [];
      assert Run(sys.soc, [op]) == Exec(Run(sys.soc, []), op);
      PoliteRun(sys.soc, [op]);
      FollowingKeepsCoupling(sys, Run(sys.soc, [op]));
    case SubmitIrq(src, dst, len) =>
      SubmitEffect(sys, src, dst, len, true);
    case DispatchAll => RoundsCouple(sys, sys.isr.nLines);
    case RecoverIdle => RecoverEffect(sys);
  }

  /** Over every disciplined run the driver is ACTIVE exactly while the engine's status is nonzero, a finished
      transfer of an ACTIVE driver has its interrupt pending, the done flag is set exactly in COMPLETE, the error
      latch is nonzero exactly in ERROR, and STARTING and RECOVERY are never seen. */
  lemma {:induction false} CouplingOverRuns(sys: Sys, acts: seq<Action>)
    requires Coupled(sys)
    requires forall i :: 0 <= i < |acts| ==> Disciplined(acts[i])
    ensures Coupled(Perform(sys, acts))
    decreases |acts|
  {
    if acts != [] {
      CouplingOverRuns(sys, acts[..|acts| - 1]);
      ActCouples(Perform(sys, acts[..|acts| - 1]), acts[|acts| - 1]);
    }
  }

  /** Booted hardware and a freshly initialised driver are coupled, so the theorem starts at boot. */
  lemma BootCouples(s: SocState, image: seq<u32>, irqCount: u32, isr: IsrState)
    requires IsVlab(s.dma.cfg) && Tame(isr)
    ensures Coupled(Sys(Booted(s, image), DriverState(VlabTables(), Lifecycle.Idle, 0, 0, irqCount), isr))
  {
    BootResult(s, image);
  }

  // ---- exactly which actions keep the coupling ----

  /** The machine operation keeps the coupling: an ACK unless it takes the completion of an ACTIVE driver, IRQ_CLEAR
      unless it wipes that completion, a START only under an ACTIVE driver and if its end will be announced. */
  predicate SafeOp(sys: Sys, op: Op) {
    var active, e := sys.drv.life.Active?, sys.soc.dma;
    match op
    case Rd(addr) => addr == INTC_ACK ==> !(active && !e.phase.Busy? && Highest(sys.soc.intc) == Some(IRQ_DMA))
    case Wr(addr, v) =>
      && (addr == DMA_IRQ_CLEAR ==> !(active && !e.phase.Busy?))
      && (addr == DMA_CTRL && Bit0(v) ==>
            active && (e.phase.Busy? || Bit1(v) || Verdict(e.cfg, e.src, e.dst, e.len) != ERR_NONE))
    case _ => true
  }

  /** The action keeps the coupling; everything it mentions can be read before the call. */
  predicate Safe(sys: Sys, a: Action) {
    match a
    case Soc(op) => SafeOp(sys, op)
    case SubmitPolled(src, dst, len) => sys.drv.life.Idle? ==> !VlabTransfer(src, dst, len)
    case StartDirect(src, dst, len, irq) =>
      sys.soc.dma.phase.Busy? || !VlabTransfer(src, dst, len) || (sys.drv.life.Active? && irq)
    case ResetDevices => !sys.drv.life.Active?
    case _ => true
  }

  /** Reading ACK keeps the coupling unless it takes away the announced completion of an ACTIVE driver. */
  lemma AckExact(sys: Sys)
    requires Coupled(sys)
    ensures Coupled(sys.(soc := BusRead(sys.soc, INTC_ACK).0))
       <==> !(sys.drv.life.Active? && !sys.soc.dma.phase.Busy? && Highest(sys.soc.intc) == Some(IRQ_DMA))
  {
    hide BusRead;
    ReadFrame(sys.soc, INTC_ACK);
  }

  /** Writing IRQ_CLEAR keeps it unless it wipes the outcome of an ACTIVE driver. */
  lemma IrqClearExact(sys: Sys, v: u32)
    requires Coupled(sys)
    ensures Coupled(sys.(soc := BusWrite(sys.soc, DMA_IRQ_CLEAR, v).0))
       <==> !(sys.drv.life.Active? && !sys.soc.dma.phase.Busy?)
  {
    hide BusWrite;
    DmaWrite(sys.soc, DMA_IRQ_CLEAR, v);
    WriteOp(sys.soc, DMA_IRQ_CLEAR, v);
  }

  /** A raw START keeps it exactly under an ACTIVE driver, if it is ignored, refused or asks for the interrupt. */
  lemma RawStartExact(sys: Sys, v: u32)
    requires Coupled(sys) && Bit0(v)
    ensures var e := sys.soc.dma;
            (Coupled(sys.(soc := BusWrite(sys.soc, DMA_CTRL, v).0)))
              <==> (sys.drv.life.Active?
                    && (e.phase.Busy? || Bit1(v) || Verdict(e.cfg, e.src, e.dst, e.len) != ERR_NONE))
  {
    hide BusWrite, Verdict, Countdown;
    DmaWrite(sys.soc, DMA_CTRL, v);
    WriteOp(sys.soc, DMA_CTRL, v);
  }

  /** dma_start accepts exactly what VLAB accepts while the engine is not busy, and then the engine runs with the
      interrupt as asked for; it never looks at the lifecycle. */
  lemma StartEffect(sys: Sys, src: u32, dst: u32, len: u32, irq: bool)
    requires IsVlab(sys.soc.dma.cfg) && sys.drv.tables == VlabTables()
    ensures var (s, rc) := StartTransfer(sys.drv, sys.soc, src, dst, len, irq);
            && (rc == DMA_OK <==> !sys.soc.dma.phase.Busy? && VlabTransfer(src, dst, len))
            && (rc == DMA_OK ==>
                  && SameButPerf(sys.soc.(dma := s.dma), s)
                  && s.dma == Programmed(sys.soc.dma, src, dst, len).(
                                ctrl := if irq then 2 else 0,
                                phase := Phase.Busy(Countdown(sys.soc.dma.cfg, len), irq)))
            && (rc != DMA_OK ==> SameButPerf(sys.soc, s))
  {
    hide HalRead, Program, Check, Verdict, VlabTransfer, Countdown;
    StatusRead(sys.soc);
    VlabAccepts(sys.soc.dma.cfg, src, dst, len);
    var s1 := HalRead(sys.soc, DMA_STATUS).0;
    ProgramStarts(s1, src, dst, len, irq);
  }

  /** dma_start keeps the coupling exactly if it is refused, or restarts the engine of an ACTIVE driver with IRQ. */
  lemma StartExact(sys: Sys, src: u32, dst: u32, len: u32, irq: bool)
    requires Coupled(sys)
    ensures var (s, rc) := StartTransfer(sys.drv, sys.soc, src, dst, len, irq);
            Coupled(sys.(soc := s)) <==> (rc != DMA_OK || (sys.drv.life.Active? && irq))
  {
    hide StartTransfer, VlabTransfer, Countdown;
    StartEffect(sys, src, dst, len, irq);
  }

  /** A submit without IRQ keeps it exactly if it is refused. */
  lemma PolledExact(sys: Sys, src: u32, dst: u32, len: u32)
    requires Coupled(sys)
    ensures Coupled(Act(sys, SubmitPolled(src, dst, len))) <==> Safe(sys, SubmitPolled(src, dst, len))
  {
    hide StartTransfer, VlabTransfer, Countdown;
    StartEffect(sys, src, dst, len, false);
  }

  /** Resetting the devices under the driver keeps it exactly if the driver waits for no transfer. */
  lemma ResetExact(sys: Sys)
    requires Coupled(sys)
    ensures Coupled(sys.(soc := ResetAll(sys.soc))) <==> !sys.drv.life.Active?
  {
  }

  /** Every action, exactly: it keeps the coupling if and only if it is safe in that state. */
  lemma CouplingExact(sys: Sys, a: Action)
    requires Coupled(sys)
    ensures Coupled(Act(sys, a)) <==> Safe(sys, a)
  {
    hide Exec, BusRead, BusWrite, Submit, Rounds, Recover, StartTransfer, VlabTransfer, Verdict, Highest;
    if Disciplined(a) {
      ActCouples(sys, a);
    } else {
      match a
      case Soc(op) => ImpoliteExact(sys, op);
      case SubmitPolled(src, dst, len) => PolledExact(sys, src, dst, len);
      case StartDirect(src, dst, len, irq) =>
        StartExact(sys, src, dst, len, irq);
        StartEffect(sys, src, dst, len, irq);
      case ResetDevices => ResetExact(sys);
    }
  }

  lemma ImpoliteExact(sys: Sys, op: Op)
    requires Coupled(sys) && !Polite(op)
    ensures Coupled(sys.(soc := Exec(sys.soc, op))) <==> SafeOp(sys, op)
  {
    hide BusRead, BusWrite, Verdict, Highest;
    match op
    case Rd(addr) => AckExact(sys);
    case Wr(addr, v) =>
      if addr == DMA_IRQ_CLEAR {
        IrqClearExact(sys, v);
      } else {
        RawStartExact(sys, v);
      }
  }

  predicate SafeRun(sys: Sys, acts: seq<Action>) {
    forall k :: 0 <= k < |acts| ==> Safe(Perform(sys, acts[..k]), acts[k])
  }

  ghost predicate CoupledThroughout(sys: Sys, acts: seq<Action>) {
    forall k :: 0 <= k <= |acts| ==> Coupled(Perform(sys, acts[..k]))
  }

  lemma ThroughoutMore(sys: Sys, acts: seq<Action>)
    requires acts != []
    ensures var n := |acts| - 1;
            && (CoupledThroughout(sys, acts) <==> CoupledThroughout(sys, acts[..n]) && Coupled(Perform(sys, acts)))
            && (CoupledThroughout(sys, acts[..n]) ==> Coupled(Perform(sys, acts[..n])))
  {
    hide Coupled, Perform;
    var n := |acts| - 1;
    var init := acts[..n];
    assert acts[..|acts|] == acts && init[..n] == init;
    assert forall k :: 0 <= k <= n ==> init[..k] == acts[..k];
  }

  lemma SafeMore(sys: Sys, acts: seq<Action>)
    requires acts != []
    ensures var n := |acts| - 1;
            SafeRun(sys, acts) <==> SafeRun(sys, acts[..n]) && Safe(Perform(sys, acts[..n]), acts[n])
  {
    hide Safe, Perform;
    var n := |acts| - 1;
    assert forall k :: 0 <= k <= n ==> acts[..n][..k] == acts[..k];
  }

  /** Over every run of any actions at all: the coupling holds between all calls exactly if each action was safe. */
  lemma {:induction false} CouplingExactOverRuns(sys: Sys, acts: seq<Action>)
    requires Coupled(sys)
    ensures CoupledThroughout(sys, acts) <==> SafeRun(sys, acts)
    decreases |acts|
  {
    hide Coupled, Safe, Act, CoupledThroughout, SafeRun;
    if acts == [] {
      NoActions(sys);
    } else {
      var init := acts[..|acts| - 1];
      CouplingExactOverRuns(sys, init);
      ThroughoutMore(sys, acts);
      SafeMore(sys, acts);
      if CoupledThroughout(sys, init) {
        CouplingExact(Perform(sys, init), acts[|acts| - 1]);
      }
    }
  }

  lemma NoActions(sys: Sys)
    requires Coupled(sys)
    ensures CoupledThroughout(sys, []) && SafeRun(sys, [])
  {
    hide Coupled;
    assert forall k :: 0 <= k <= 0 ==> Perform(sys, [][..k]) == sys;
  }
}
