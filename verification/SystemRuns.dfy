/** Every run of the whole system is a run of the machine: what driver and dispatcher do are bus accesses. */
module SystemRunTheorems {
  import opened Words
  import opened Platform
  import opened SocModel
  import opened Hal
  import opened DmaDriverModel
  import opened IsrModel
  import opened LifecycleTheorems
  import opened TransferTheorems

  // ---- the accesses of each call ----

  /** The accesses of the two-step clear. */
  const CLEARS: seq<Op> := [Wr(DMA_IRQ_CLEAR, 1), Wr(INTC_CLEAR, IRQ_DMA)]

  function ProgramOps(src: u32, dst: u32, len: u32, irq: bool): seq<Op> {
    [Wr(DMA_SRC, src), Wr(DMA_DST, dst), Wr(DMA_LEN, len), Wr(DMA_CTRL, if irq then 3 else 1)]
  }

  function StartOps(d: DriverState, s: SocState, src: u32, dst: u32, len: u32, irq: bool): seq<Op> {
    [Rd(DMA_STATUS)]
    + if StartTransfer(d, s, src, dst, len, irq).1 == DMA_OK then ProgramOps(src, dst, len, irq) else []
  }

  function SubmitOps(d: DriverState, s: SocState, src: u32, dst: u32, len: u32, irq: bool): seq<Op> {
    if d.life.Idle? then StartOps(d, s, src, dst, len, irq) else []
  }

  function IsrOps(s: SocState): seq<Op> {
    var (s1, st) := HalRead(s, DMA_STATUS);
    [Rd(DMA_STATUS)] + (if !Bit1(st) && Bit2(st) then [Rd(DMA_ERR_CODE)] else []) + CLEARS
  }

  function HandlerOps(h: Handler, s: SocState): seq<Op> {
    match h
    case NoHandler => []
    case DmaHandler => IsrOps(s)
    case Foreign(behave) => behave(s)
  }

  function RoundOps(sys: Sys): seq<Op> {
    var (s1, line) := HalRead(sys.soc, INTC_ACK);
    [Rd(INTC_ACK)]
    + if line >= sys.isr.nLines then [] else HandlerOps(sys.isr.vectors[line], s1) + [Wr(INTC_CLEAR, line)]
  }

  function RoundsOps(sys: Sys, fuel: nat): seq<Op>
    decreases fuel
  {
    if fuel == 0 then []
    else RoundOps(sys) + if Round(sys).1.None? then [] else RoundsOps(Round(sys).0, fuel - 1)
  }

  function ActOps(sys: Sys, a: Action): seq<Op> {
    match a
    case Soc(op) => [op]
    case SubmitIrq(src, dst, len) => SubmitOps(sys.drv, sys.soc, src, dst, len, true)
    case SubmitPolled(src, dst, len) => SubmitOps(sys.drv, sys.soc, src, dst, len, false)
    case StartDirect(src, dst, len, irq) => StartOps(sys.drv, sys.soc, src, dst, len, irq)
    case DispatchAll => RoundsOps(sys, sys.isr.nLines)
    case RecoverIdle => if sys.drv.life.Error? || sys.drv.life.Complete? then CLEARS else []
    case ResetDevices => []
  }

  /** A reset of the devices is not an access; every other action is made of them. */
  predicate Accesses(acts: seq<Action>) {
    forall i :: 0 <= i < |acts| ==> !acts[i].ResetDevices?
  }

  /** The machine operations of a whole run. */
  function MachineOps(sys: Sys, acts: seq<Action>): seq<Op>
    decreases |acts|
  {
    if acts == [] then []
    else
      var n := |acts| - 1;
      MachineOps(sys, acts[..n]) + ActOps(Perform(sys, acts[..n]), acts[n])
  }

  // ---- runs compose ----

  lemma {:induction false} RunConcat(s: SocState, a: seq<Op>, b: seq<Op>)
    ensures Run(s, a + b) == Run(Run(s, a), b)
    ensures UnfrozenTicks(s, a + b) == UnfrozenTicks(s, a) + UnfrozenTicks(Run(s, a), b)
    decreases |b|
  {
    hide Exec;
    if b == [] {
      assert a + b == a;
    } else {
      assert (a + b)[..|a + b| - 1] == a + b[..|b| - 1];
      RunConcat(s, a, b[..|b| - 1]);
    }
  }

  lemma RunOne(s: SocState, op: Op)
    ensures Run(s, [op]) == Exec(s, op)
    ensures UnfrozenTicks(s, [op]) == if op.Step? && !s.dma.stuck then 1 else 0
  {
    hide Exec;
    assert [op][..0] == [];
    assert Run(s, []) == s && UnfrozenTicks(s, []) == 0;
  }

  lemma RunTwo(s: SocState, a: Op, b: Op)
    ensures Run(s, [a, b]) == Exec(Exec(s, a), b)
  {
    hide Exec, Run;
    assert [a, b] == [a] + [b];
    RunConcat(s, [a], [b]);
    RunOne(s, a);
    RunOne(Exec(s, a), b);
  }

  lemma ClearRuns(s: SocState)
    ensures TwoStepClear(s) == Run(s, CLEARS)
  {
    hide Exec, HalWrite, Run;
    RunTwo(s, Wr(DMA_IRQ_CLEAR, 1), Wr(INTC_CLEAR, IRQ_DMA));
    WriteOp(s, DMA_IRQ_CLEAR, 1);
    WriteOp(HalWrite(s, DMA_IRQ_CLEAR, 1), INTC_CLEAR, IRQ_DMA);
  }

  lemma ProgramRuns(s: SocState, src: u32, dst: u32, len: u32, irq: bool)
    ensures Program(s, src, dst, len, irq) == Run(s, ProgramOps(src, dst, len, irq))
  {
    hide Exec, HalWrite, Run;
    var ctrl: u32 := if irq then 3 else 1;
    var a, b := [Wr(DMA_SRC, src), Wr(DMA_DST, dst)], [Wr(DMA_LEN, len), Wr(DMA_CTRL, ctrl)];
    assert ProgramOps(src, dst, len, irq) == a + b;
    RunConcat(s, a, b);
    RunTwo(s, Wr(DMA_SRC, src), Wr(DMA_DST, dst));
    WriteOp(s, DMA_SRC, src);
    WriteOp(HalWrite(s, DMA_SRC, src), DMA_DST, dst);
    var t := Run(s, a);
    RunTwo(t, Wr(DMA_LEN, len), Wr(DMA_CTRL, ctrl));
    WriteOp(t, DMA_LEN, len);
    WriteOp(HalWrite(t, DMA_LEN, len), DMA_CTRL, ctrl);
  }

  lemma StartRuns(d: DriverState, s: SocState, src: u32, dst: u32, len: u32, irq: bool)
    ensures StartTransfer(d, s, src, dst, len, irq).0 == Run(s, StartOps(d, s, src, dst, len, irq))
  {
    hide Exec, HalRead, Program, Run, Check, ProgramOps;
    ReadOp(s, DMA_STATUS);
    RunOne(s, Rd(DMA_STATUS));
    var s1 := HalRead(s, DMA_STATUS).0;
    if StartTransfer(d, s, src, dst, len, irq).1 == DMA_OK {
      ProgramRuns(s1, src, dst, len, irq);
      RunConcat(s, [Rd(DMA_STATUS)], ProgramOps(src, dst, len, irq));
    } else {
      assert StartOps(d, s, src, dst, len, irq) == [Rd(DMA_STATUS)];
    }
  }

  lemma IsrRuns(d: DriverState, s: SocState)
    ensures Isr(d, s).1 == Run(s, IsrOps(s))
  {
    hide Exec, HalRead, TwoStepClear, Run, Bit1, Bit2, CLEARS;
    var (s1, st) := HalRead(s, DMA_STATUS);
    var looks := [Rd(DMA_STATUS)] + if !Bit1(st) && Bit2(st) then [Rd(DMA_ERR_CODE)] else [];
    assert IsrOps(s) == looks + CLEARS;
    ReadOp(s, DMA_STATUS);
    ReadOp(s1, DMA_ERR_CODE);
    if !Bit1(st) && Bit2(st) {
      RunTwo(s, Rd(DMA_STATUS), Rd(DMA_ERR_CODE));
      assert looks == [Rd(DMA_STATUS), Rd(DMA_ERR_CODE)];
    } else {
      RunOne(s, Rd(DMA_STATUS));
      assert looks == [Rd(DMA_STATUS)];
    }
    RunConcat(s, looks, CLEARS);
    ClearRuns(Latch(d, s).1);
  }

  lemma HandlerRuns(h: Handler, sys: Sys)
    ensures Handle(h, sys).soc == Run(sys.soc, HandlerOps(h, sys.soc))
  {
    hide Isr, IsrOps;
    if h.DmaHandler? {
      IsrRuns(sys.drv, sys.soc);
    }
  }

  lemma RoundRuns(sys: Sys)
    ensures Round(sys).0.soc == Run(sys.soc, RoundOps(sys))
  {
    hide Exec, HalRead, HalWrite, Run, HandlerOps, Handle;
    var (s1, line) := HalRead(sys.soc, INTC_ACK);
    ReadOp(sys.soc, INTC_ACK);
    RunOne(sys.soc, Rd(INTC_ACK));
    if line < sys.isr.nLines {
      var h := sys.isr.vectors[line];
      var ops := HandlerOps(h, s1);
      HandlerRuns(h, sys.(soc := s1));
      var t := Run(s1, ops);
      WriteOp(t, INTC_CLEAR, line);
      RunOne(t, Wr(INTC_CLEAR, line));
      RunConcat(s1, ops, [Wr(INTC_CLEAR, line)]);
      RunConcat(sys.soc, [Rd(INTC_ACK)], ops + [Wr(INTC_CLEAR, line)]);
    } else {
      assert RoundOps(sys) == [Rd(INTC_ACK)];
    }
  }

  lemma {:induction false} RoundsRun(sys: Sys, fuel: nat)
    ensures Rounds(sys, fuel).0.soc == Run(sys.soc, RoundsOps(sys, fuel))
    decreases fuel
  {
    hide Round, RoundOps, Exec;
    RoundsUnfold(sys, fuel);
    if fuel > 0 {
      RoundRuns(sys);
      if Round(sys).1.Some? {
        RoundsRun(Round(sys).0, fuel - 1);
        RunConcat(sys.soc, RoundOps(sys), RoundsOps(Round(sys).0, fuel - 1));
      } else {
        assert RoundsOps(sys, fuel) == RoundOps(sys);
      }
    }
  }

  lemma ActRuns(sys: Sys, a: Action)
    requires !a.ResetDevices?
    ensures Act(sys, a).soc == Run(sys.soc, ActOps(sys, a))
  {
    hide Exec, Run, StartTransfer, StartOps, Rounds, RoundsOps, TwoStepClear;
    assert Run(sys.soc, []) == sys.soc by {
      RunNothing(sys.soc);
    }
    match a
    case Soc(op) => RunOne(sys.soc, op);
    case SubmitIrq(src, dst, len) => StartRuns(sys.drv, sys.soc, src, dst, len, true);
    case SubmitPolled(src, dst, len) => StartRuns(sys.drv, sys.soc, src, dst, len, false);
    case StartDirect(src, dst, len, irq) => StartRuns(sys.drv, sys.soc, src, dst, len, irq);
    case DispatchAll => RoundsRun(sys, sys.isr.nLines);
    case RecoverIdle => ClearRuns(sys.soc);
  }

  lemma RunNothing(s: SocState)
    ensures Run(s, []) == s
  {
  }

  /** Every run of clients, driver, dispatcher and handlers, disciplined or not, without a reset of the devices is a run of the machine under the
      operations they perform; so whatever holds of all machine runs holds of the system. */
  lemma {:induction false} SystemRunsAreMachineRuns(sys: Sys, acts: seq<Action>)
    requires Accesses(acts)
    ensures Perform(sys, acts).soc == Run(sys.soc, MachineOps(sys, acts))
    decreases |acts|
  {
    hide Act, ActOps, Exec;
    if acts != [] {
      var n := |acts| - 1;
      SystemRunsAreMachineRuns(sys, acts[..n]);
      var before := Perform(sys, acts[..n]);
      ActRuns(before, acts[n]);
      RunConcat(sys.soc, MachineOps(sys, acts[..n]), ActOps(before, acts[n]));
    }
  }
}
