/** From submit to COMPLETE: what the driver reports is what happened to memory. */
module EndToEndTheorems {
  import opened Words
  import opened Platform
  import opened MemoryModel
  import opened DmaModel
  import opened SocModel
  import opened Hal
  import opened DmaDriverModel
  import opened IsrModel
  import opened Validators
  import opened Timing
  import opened LifecycleTheorems
  import opened DispatchTheorems
  import opened CompletionTheorems
  import opened TransferTheorems
  import opened AtomicTheorems
  import opened SystemRunTheorems
  import opened BootTheorems
  import opened RegisterTheorems
  import opened BusMemoryTheorems

  /** Operations that neither pass time nor rewrite the transfer. */
  predicate Instant(ops: seq<Op>) {
    forall i :: 0 <= i < |ops| ==> !ops[i].Step? && KeepsTransfer(ops[i])
  }

  /** No foreign handler rewrites SRC, DST or LEN. */
  ghost predicate LeavesTransfer(i: IsrState) {
    forall k :: 0 <= k < MAX_LINES && i.vectors[k].Foreign? ==>
      forall s: SocState :: forall j :: 0 <= j < |i.vectors[k].behave(s)| ==> KeepsTransfer(i.vectors[k].behave(s)[j])
  }

  lemma {:induction false} InstantRun(s: SocState, ops: seq<Op>)
    requires Instant(ops)
    ensures UnfrozenTicks(s, ops) == 0
    decreases |ops|
  {
    hide Run;
    if ops != [] {
      InstantRun(s, ops[..|ops| - 1]);
    }
  }

  lemma InstantHandler(isr: IsrState, k: nat, s: SocState)
    requires k < MAX_LINES && RaiseNothing(isr) && LeavesTransfer(isr)
    ensures Instant(HandlerOps(isr.vectors[k], s))
  {
    hide HalRead;
    if isr.vectors[k].Foreign? {
      var ops := isr.vectors[k].behave(s);
      forall j | 0 <= j < |ops|
        ensures !ops[j].Step? && KeepsTransfer(ops[j])
      {
        assert LeavesIntc(ops[j], k);
      }
    }
  }

  lemma InstantRound(sys: Sys)
    requires RaiseNothing(sys.isr) && LeavesTransfer(sys.isr)
    ensures Instant(RoundOps(sys)) && SameVectors(Round(sys).0.isr, sys.isr)
  {
    hide HalRead, HalWrite, HandlerOps, Isr, RaiseNothing, LeavesTransfer;
    var (s1, line) := HalRead(sys.soc, INTC_ACK);
    if line < sys.isr.nLines {
      InstantHandler(sys.isr, line, s1);
    }
  }

  lemma KeepVectors(i: IsrState, j: IsrState)
    requires SameVectors(i, j) && RaiseNothing(i) && LeavesTransfer(i)
    ensures RaiseNothing(j) && LeavesTransfer(j)
  {
  }

  lemma {:induction false} InstantRounds(sys: Sys, fuel: nat)
    requires RaiseNothing(sys.isr) && LeavesTransfer(sys.isr)
    ensures Instant(RoundsOps(sys, fuel))
    decreases fuel
  {
    hide Round, RoundOps, RaiseNothing, LeavesTransfer, KeepsTransfer;
    if fuel > 0 {
      InstantRound(sys);
      KeepVectors(sys.isr, Round(sys).0.isr);
      InstantRounds(Round(sys).0, fuel - 1);
    }
  }

  /** A disciplined action that leaves SRC, DST and LEN alone. */
  predicate Untouched(a: Action) {
    Disciplined(a) && (a.Soc? ==> KeepsTransfer(a.op))
  }

  /** While the driver is ACTIVE only ticks pass time, and nothing rewrites its transfer. */
  lemma ActiveOps(sys: Sys, a: Action)
    requires sys.drv.life.Active? && RaiseNothing(sys.isr) && LeavesTransfer(sys.isr) && Untouched(a)
    ensures var ops := ActOps(sys, a);
            && (forall i :: 0 <= i < |ops| ==> KeepsTransfer(ops[i]))
            && UnfrozenTicks(sys.soc, ops) == if a == Action.Soc(Step) && !sys.soc.dma.stuck then 1 else 0
  {
    hide RaiseNothing, LeavesTransfer, RoundsOps, Run, Polite;
    match a
    case Soc(op) => RunOne(sys.soc, op);
    case DispatchAll =>
      InstantRounds(sys, sys.isr.nLines);
      InstantRun(sys.soc, RoundsOps(sys, sys.isr.nLines));
    case SubmitIrq(_, _, _) =>
    case RecoverIdle =>
  }

  /** As long as no dispatch is due, a run of the ACTIVE driver is a run of the machine with the same ticks, in which
      nothing rewrites the transfer. */
  lemma {:induction false} ActiveTrace(sys: Sys, acts: seq<Action>)
    requires Coupled(sys) && sys.drv.life.Active? && Quiet(sys.isr) && LeavesTransfer(sys.isr)
    requires forall i :: 0 <= i < |acts| ==> Untouched(acts[i])
    requires forall k :: 0 <= k < |acts| ==> !Due(sys, acts, k)
    ensures var ops := MachineOps(sys, acts);
            && (forall i :: 0 <= i < |ops| ==> KeepsTransfer(ops[i]))
            && UnfrozenTicks(sys.soc, ops) == Unfrozen(sys, acts)
    decreases |acts|
  {
    hide Coupled, Perform, ActOps, Due, KeepsTransfer, RaiseNothing, LeavesTransfer, Tame, Run;
    if acts != [] {
      var n := |acts| - 1;
      var init := acts[..n];
      var before := Perform(sys, init);
      EarlierDue(sys, acts, n);
      ActiveTrace(sys, init);
      WaitingPrefix(sys, acts, n);
      KeepVectors(sys.isr, before.isr);
      ActiveOps(before, acts[n]);
      AllUntouched(init);
      SystemRunsAreMachineRuns(sys, init);
      RunConcat(sys.soc, MachineOps(sys, init), ActOps(before, acts[n]));
    }
  }

  lemma EarlierDue(sys: Sys, acts: seq<Action>, n: nat)
    requires n <= |acts| && forall k :: 0 <= k < |acts| ==> !Due(sys, acts, k)
    ensures forall k :: 0 <= k < n ==> !Due(sys, acts[..n], k)
  {
    hide Perform, Unfrozen;
    forall k | 0 <= k < n
      ensures !Due(sys, acts[..n], k)
    {
      assert acts[..n][..k] == acts[..k];
      assert !Due(sys, acts, k);
    }
  }

  lemma NothingDueYet(sys: Sys, acts: seq<Action>)
    requires Unfrozen(sys, acts) < Left(sys.soc.dma.phase)
    ensures forall k :: 0 <= k < |acts| ==> !Due(sys, acts, k)
  {
    hide Unfrozen, Perform;
    forall k | 0 <= k < |acts|
      ensures !Due(sys, acts, k)
    {
      UnfrozenGrows(sys, acts, k);
    }
  }

  /** The whole story of a transfer. An accepted submit; any disciplined run, dispatches included, in which nobody rewrites
      SRC, DST or LEN, up to the documented number of unfrozen ticks; the last of those ticks; and one dispatch with the
      DMA line enabled: the driver is ACTIVE all along and then reports COMPLETE, never ERROR. Until that tick SRAM and
      UART were as the bus accesses alone made them, and that tick performed the submitted transfer. */
  lemma SubmittedTransferArrives(sys: Sys, src: u32, dst: u32, len: u32, acts: seq<Action>)
    requires Coupled(sys) && sys.drv.life.Idle? && WellFormed(sys.soc) && Quiet(sys.isr) && LeavesTransfer(sys.isr)
    requires VlabTransfer(src, dst, len) && TimingFits(sys.soc.dma.cfg, len)
    requires forall i :: 0 <= i < |acts| ==> Untouched(acts[i])
    requires var active := Act(sys, SubmitIrq(src, dst, len));
             var before := Perform(active, acts);
             Unfrozen(active, acts) == TransferTicks(len / 4, sys.soc.dma.cfg.latency, sys.soc.dma.cfg.burst) - 1
             && !before.soc.dma.stuck && IRQ_DMA in before.soc.intc.enable
    ensures var active := Act(sys, SubmitIrq(src, dst, len));
            var before := Perform(active, acts);
            var last := Act(before, Action.Soc(Step));
            && (forall j :: 0 <= j <= |acts| ==> Perform(active, acts[..j]).drv.life.Active?)
            && last.drv.life.Active?
            && (before.soc.sram, before.soc.uart) == CpuRun(sys.soc.sram, sys.soc.uart, MachineOps(active, acts))
            && before.soc.dma.src == src && before.soc.dma.dst == dst && before.soc.dma.len == len
            && Transferred(before.soc, last.soc)
            && Act(last, DispatchAll).drv.life.Complete?
  {
    hide Perform, Rounds, Submit, Run, CpuRun, Transferred, Tick, VlabTransfer, Countdown, TimingFits, TransferTicks,
         Unfrozen, UnfrozenTicks, MachineOps, Exec, Due, Untouched, KeepsTransfer, RaiseNothing, LeavesTransfer, Tame;
    SubmitEffect(sys, src, dst, len, true);
    var active := Act(sys, SubmitIrq(src, dst, len));
    ActCouples(sys, SubmitIrq(src, dst, len));
    WordsOfTransfer(src, dst, len);
    CountdownExact(sys.soc.dma.cfg, len);
    NothingDueYet(active, acts);
    AllUntouched(acts);
    ActiveAllAlong(active, acts);
    WaitingCounts(active, acts);
    var before := Perform(active, acts);
    ActiveTrace(active, acts);
    SystemRunsAreMachineRuns(active, acts);
    TransferIsAtomic(active.soc, MachineOps(active, acts));
    LastTick(before);
    EndsDone(before.soc);
    var last := Act(before, Action.Soc(Step));
    QuietVectors(sys.isr, last.isr);
    DueDispatch(last);
  }

  lemma AllUntouched(acts: seq<Action>)
    requires forall i :: 0 <= i < |acts| ==> Untouched(acts[i])
    ensures AllDisciplined(acts) && Accesses(acts)
  {
  }

  lemma ActiveAllAlong(sys: Sys, acts: seq<Action>)
    requires Coupled(sys) && sys.drv.life.Active? && Quiet(sys.isr) && AllDisciplined(acts)
    requires forall k :: 0 <= k < |acts| ==> !Due(sys, acts, k)
    ensures forall j :: 0 <= j <= |acts| ==> Perform(sys, acts[..j]).drv.life.Active?
  {
    hide Coupled, Quiet, Perform, Due, Unfrozen;
    forall j | 0 <= j <= |acts|
      ensures Perform(sys, acts[..j]).drv.life.Active?
    {
      WaitingPrefix(sys, acts, j);
    }
  }

  lemma WordsOfTransfer(src: u32, dst: u32, len: u32)
    requires VlabTransfer(src, dst, len)
    ensures 0 < len <= 16384 && WordsOf(len) == len / 4
  {
  }

  lemma EndsDone(s: SocState)
    requires Transferred(s, Tick(s))
    ensures Tick(s).dma.phase.Done?
  {
    hide Tick;
  }

  lemma LastTick(before: Sys)
    requires Coupled(before) && before.drv.life.Active?
    ensures var last := Act(before, Action.Soc(Step));
            && Coupled(last) && last.drv == before.drv && last.isr == before.isr
            && last.soc == Tick(before.soc) && last.soc.intc.enable == before.soc.intc.enable
  {
    hide Tick;
    WaitStep(before, Action.Soc(Step));
    StepIsTick(before.soc);
    TickCounts(before.soc);
  }

  /** dma_start goes behind the lifecycle's back: accepted with IRQ by an IDLE driver, and given any machine run up to its
      last tick, the following dispatch reports COMPLETE although nothing was ever submitted. */
  lemma StartBypassesLifecycle(sys: Sys, src: u32, dst: u32, len: u32, ops: seq<Op>)
    requires Coupled(sys) && sys.drv.life.Idle? && WellFormed(sys.soc) && Quiet(sys.isr)
    requires forall i :: 0 <= i < |ops| ==> KeepsTransfer(ops[i])
    requires var (s, rc) := StartTransfer(sys.drv, sys.soc, src, dst, len, true);
             rc == DMA_OK && UnfrozenTicks(s, ops) == Countdown(s.dma.cfg, len) - 1
             && !Run(s, ops).dma.stuck && IRQ_DMA in Run(s, ops).intc.enable
    ensures var s := StartTransfer(sys.drv, sys.soc, src, dst, len, true).0;
            var last := sys.(soc := Tick(Run(s, ops)));
            Transferred(Run(s, ops), last.soc) && last.drv.life.Idle? && Act(last, DispatchAll).drv.life.Complete?
  {
    hide StartTransfer, Rounds, Run, CpuRun, Transferred, Tick, VlabTransfer, Countdown, UnfrozenTicks, KeepsTransfer,
         RaiseNothing, Tame;
    StartEffect(sys, src, dst, len, true);
    var s := StartTransfer(sys.drv, sys.soc, src, dst, len, true).0;
    TransferIsAtomic(s, ops);
    CountdownOverRun(s, ops);
    var p := Run(s, ops);
    EndsDone(p);
    TickRaises(p);
    TickCounts(p);
    DispatchEffect(sys.(soc := Tick(p)));
  }

  /** A polled transfer moves its bytes like any other: with its registers left alone, STATUS turns from BUSY to DONE at
      exactly its last tick, which performs it and raises nothing. */
  lemma PolledTransferMoves(sys: Sys, src: u32, dst: u32, len: u32, ops: seq<Op>)
    requires Coupled(sys) && sys.drv.life.Idle? && WellFormed(sys.soc) && VlabTransfer(src, dst, len)
    requires forall i :: 0 <= i < |ops| ==> KeepsTransfer(ops[i])
    requires var s := Act(sys, SubmitPolled(src, dst, len)).soc;
             UnfrozenTicks(s, ops) == Countdown(s.dma.cfg, len) - 1 && !Run(s, ops).dma.stuck
    ensures var s := Act(sys, SubmitPolled(src, dst, len)).soc;
            var p := Run(s, ops);
            && Act(sys, SubmitPolled(src, dst, len)).drv.life.Active?
            && StatusOf(p.dma.phase) == 1 && StatusOf(Tick(p).dma.phase) == 2
            && (p.sram, p.uart) == CpuRun(sys.soc.sram, sys.soc.uart, ops)
            && p.dma.src == src && p.dma.dst == dst && p.dma.len == len
            && Transferred(p, Tick(p))
            && (IRQ_DMA in Tick(p).intc.pending <==> IRQ_DMA in p.intc.pending)
  {
    hide Submit, Run, CpuRun, Transferred, Tick, VlabTransfer, Countdown, UnfrozenTicks, KeepsTransfer;
    SubmitEffect(sys, src, dst, len, false);
    var s := Act(sys, SubmitPolled(src, dst, len)).soc;
    CountdownOverRun(s, ops);
    TransferIsAtomic(s, ops);
    EndsDone(Run(s, ops));
    TickRaises(Run(s, ops));
  }

  // ---- from power-up ----

  /** ENABLE for the DMA line, then ticks. */
  function EnableAndWait(n: nat): seq<Action> {
    [Action.Soc(Wr(INTC_ENABLE, 4))] + seq(n, _ => Action.Soc(Step))
  }

  lemma EnableStep(sys: Sys)
    ensures var t := Act(sys, Action.Soc(Wr(INTC_ENABLE, 4)));
            IRQ_DMA in t.soc.intc.enable && t.soc.dma == sys.soc.dma && t.drv == sys.drv && t.isr == sys.isr
  {
    hide BusWrite;
    EnableTakesEffect(sys.soc, 4, IRQ_DMA);
  }

  lemma TickKeepsSetting(s: SocState)
    ensures Tick(s).dma.stuck == s.dma.stuck && Tick(s).intc.enable == s.intc.enable
  {
    TickCounts(s);
  }

  /** Waiting like this on an unfrozen machine passes every tick and keeps the line enabled. */
  lemma {:induction false} WaitsUnfrozen(sys: Sys, n: nat)
    requires !sys.soc.dma.stuck
    ensures var t := Perform(sys, EnableAndWait(n));
            Unfrozen(sys, EnableAndWait(n)) == n && !t.soc.dma.stuck && IRQ_DMA in t.soc.intc.enable
    decreases n
  {
    hide Exec;
    var acts := EnableAndWait(n);
    if n == 0 {
      EnableStep(sys);
      var first := Action.Soc(Wr(INTC_ENABLE, 4));
      assert acts == [first] && acts[..0] == [];
      assert Perform(sys, acts) == Act(Perform(sys, []), first);
      assert Unfrozen(sys, acts) == Unfrozen(sys, []);
    } else {
      WaitsUnfrozen(sys, n - 1);
      assert acts[..|acts| - 1] == EnableAndWait(n - 1);
      var before := Perform(sys, EnableAndWait(n - 1));
      StepIsTick(before.soc);
      TickKeepsSetting(before.soc);
    }
  }

  /** The first transfer after boot, with nothing assumed: boot any machine, initialise the driver, configure three lines and
      register the DMA handler; submit any transfer VLAB accepts, enable the line and let the documented number of ticks
      pass. The next dispatch reports COMPLETE, and the bytes have moved in memory as it was just before the last tick. */
  lemma FirstTransferAfterBoot(s: SocState, image: seq<u32>, i: IsrState, src: u32, dst: u32, len: u32)
    requires WellFormed(s) && VlabTransfer(src, dst, len) && TimingFits(s.dma.cfg, len)
    ensures var isr := Registered(Configured(i, 3), IRQ_DMA, DmaHandler);
            var up := Sys(Booted(s, image), DriverState(VlabTables(), Lifecycle.Idle, 0, 0, 0), isr);
            var n := TransferTicks(len / 4, s.dma.cfg.latency, s.dma.cfg.burst);
            n >= 1 &&
            var before := Perform(Act(up, SubmitIrq(src, dst, len)), EnableAndWait(n - 1));
            var last := Act(before, Action.Soc(Step));
            && before.soc.dma.src == src && before.soc.dma.dst == dst && before.soc.dma.len == len
            && Transferred(before.soc, last.soc) && last.drv.life.Active?
            && Act(last, DispatchAll).drv.life.Complete?
  {
    hide Perform, Rounds, Submit, Transferred, Booted, VlabTransfer, TimingFits, TransferTicks, Registered, Configured,
         Unfrozen, Exec, Act, Wired, RaiseNothing, EnableAndWait;
    var isr := Registered(Configured(i, 3), IRQ_DMA, DmaHandler);
    var up := Sys(Booted(s, image), DriverState(VlabTables(), Lifecycle.Idle, 0, 0, 0), isr);
    var n := TransferTicks(len / 4, s.dma.cfg.latency, s.dma.cfg.burst);
    SetUpWires(i, 3);
    HandlersOfSetUp(i);
    BootCouples(s, image, 0, isr);
    BootResult(s, image);
    BootWellFormed(s, image);
    WordsOfTransfer(src, dst, len);
    AtLeastOneTick(len / 4, s.dma.cfg.latency, s.dma.cfg.burst);
    SubmitUnfrozen(up, src, dst, len);
    WaitsUnfrozen(Act(up, SubmitIrq(src, dst, len)), n - 1);
    WaitUntouched(n - 1);
    SubmittedTransferArrives(up, src, dst, len, EnableAndWait(n - 1));
  }

  lemma HandlersOfSetUp(i: IsrState)
    ensures LeavesTransfer(Registered(Configured(i, 3), IRQ_DMA, DmaHandler))
  {
    hide Registered, Configured;
    ConfigureEmpties(i, 3);
    RegisterStores(Configured(i, 3), IRQ_DMA, DmaHandler);
  }

  lemma BootWellFormed(s: SocState, image: seq<u32>)
    requires WellFormed(s)
    ensures WellFormed(Booted(s, image)) && !Booted(s, image).dma.stuck
  {
    hide Booted, LoadWords;
    BootResult(s, image);
    ImageFits(s.rom.(data := Zeros(|s.rom.data|)), image);
  }

  lemma SubmitUnfrozen(sys: Sys, src: u32, dst: u32, len: u32)
    requires Coupled(sys) && !sys.soc.dma.stuck && sys.drv.life.Idle? && VlabTransfer(src, dst, len)
    ensures !Act(sys, SubmitIrq(src, dst, len)).soc.dma.stuck
  {
    hide Submit, VlabTransfer, Countdown;
    SubmitEffect(sys, src, dst, len, true);
  }

  lemma WaitUntouched(n: nat)
    ensures forall k :: 0 <= k < |EnableAndWait(n)| ==> Untouched(EnableAndWait(n)[k])
  {
  }
}
