/** No completion is lost: from ACTIVE, enough ticks and a dispatch lead to the outcome, a recover back to IDLE. */
module CompletionTheorems {
  import opened Words
  import opened Platform
  import opened UartModel
  import opened DmaModel
  import opened SocModel
  import opened Hal
  import opened DmaDriverModel
  import opened IsrModel
  import opened Validators
  import opened Access
  import opened Bus
  import opened LifecycleTheorems
  import opened DispatchTheorems

  predicate AllDisciplined(acts: seq<Action>) {
    forall i :: 0 <= i < |acts| ==> Disciplined(acts[i])
  }

  /** Ticks left to the running transfer. */
  function Left(p: Phase): int {
    if p.Busy? then p.remaining else 0
  }

  /** Ticks of the run at which the engine was not frozen by its fault latch. */
  function Unfrozen(sys: Sys, acts: seq<Action>): nat
    decreases |acts|
  {
    if acts == [] then 0
    else
      var init, last := acts[..|acts| - 1], acts[|acts| - 1];
      Unfrozen(sys, init) + if last == Action.Soc(Step) && !Perform(sys, init).soc.dma.stuck then 1 else 0
  }

  lemma {:induction false} UnfrozenGrows(sys: Sys, acts: seq<Action>, k: nat)
    requires k <= |acts|
    ensures Unfrozen(sys, acts[..k]) <= Unfrozen(sys, acts)
    decreases |acts|
  {
    if k == |acts| {
      assert acts[..k] == acts;
    } else {
      assert acts[..k] == acts[..|acts| - 1][..k];
      UnfrozenGrows(sys, acts[..|acts| - 1], k);
    }
  }

  /** The k-th action is a dispatch that finds the transfer's ticks used up and the DMA line enabled. */
  predicate Due(sys: Sys, acts: seq<Action>, k: nat)
    requires k < |acts|
  {
    && acts[k].DispatchAll?
    && Unfrozen(sys, acts[..k]) >= Left(sys.soc.dma.phase)
    && IRQ_DMA in Perform(sys, acts[..k]).soc.intc.enable
  }

  /** Apart from the count of interrupts the driver is as it was. */
  predicate SameDriver(d: DriverState, e: DriverState) {
    e == d.(irqCount := e.irqCount)
  }

  /** The driver has not heard of its transfer yet, whose engine has the unfrozen ticks less to go. */
  ghost predicate Waiting(sys: Sys, t: Sys, spent: nat) {
    && Coupled(t) && SameVectors(t.isr, sys.isr) && t.drv.life.Active? && SameDriver(sys.drv, t.drv)
    && (t.soc.dma.phase.Busy? <==> spent < Left(sys.soc.dma.phase))
    && (t.soc.dma.phase.Busy? ==> Left(t.soc.dma.phase) == Left(sys.soc.dma.phase) - spent)
  }

  /** An action other than a dispatch leaves an ACTIVE driver alone, and only ticks move the engine. */
  lemma WaitStep(sys: Sys, a: Action)
    requires Coupled(sys) && sys.drv.life.Active? && Disciplined(a) && !a.DispatchAll?
    ensures var t := Act(sys, a);
            && Coupled(t) && t.drv == sys.drv && t.isr == sys.isr
            && (a == Action.Soc(Step) ==> CountsDown(sys.soc.dma, t.soc.dma))
            && (a != Action.Soc(Step) ==> t.soc.dma.phase == sys.soc.dma.phase)
  {
    hide Exec, Submit, Recover;
    ActCouples(sys, a);
    match a
    case Soc(op) =>
      PoliteExec(sys.soc, op);
      if op.Step? {
        TickCounts(sys.soc);
        StepIsTick(sys.soc);
      }
    case SubmitIrq(src, dst, len) => SubmitEffect(sys, src, dst, len, true);
    case RecoverIdle => RecoverEffect(sys);
  }

  /** A dispatch while the engine is busy, or with the line masked, leaves the driver ACTIVE and the engine alone. */
  lemma EarlyDispatch(sys: Sys)
    requires Coupled(sys) && Quiet(sys.isr) && sys.drv.life.Active?
    requires sys.soc.dma.phase.Busy? || IRQ_DMA !in sys.soc.intc.enable
    ensures var t := Act(sys, DispatchAll);
            Coupled(t) && SameDriver(sys.drv, t.drv) && t.soc.dma.phase == sys.soc.dma.phase && SameVectors(t.isr, sys.isr)
  {
    hide Rounds;
    ActCouples(sys, DispatchAll);
    DispatchEffect(sys);
  }

  /** A dispatch of a finished transfer with the line enabled latches the outcome and idles the engine. */
  lemma DueDispatch(sys: Sys)
    requires Coupled(sys) && Quiet(sys.isr) && sys.drv.life.Active?
    requires !sys.soc.dma.phase.Busy? && IRQ_DMA in sys.soc.intc.enable
    ensures var t := Act(sys, DispatchAll);
            && Coupled(t) && t.soc.dma.phase.Idle? && SameVectors(t.isr, sys.isr)
            && t.drv.life == (if sys.soc.dma.phase.Done? then Complete else Error)
            && (sys.soc.dma.phase.Failed? ==> t.drv.errLatch == sys.soc.dma.phase.code)
  {
    hide Rounds;
    ActCouples(sys, DispatchAll);
    DispatchEffect(sys);
  }

  /** So a dispatch completes a finished transfer exactly when the DMA line is enabled. */
  lemma DispatchCompletesIffEnabled(sys: Sys)
    requires Coupled(sys) && Quiet(sys.isr) && sys.drv.life.Active? && !sys.soc.dma.phase.Busy?
    ensures var t := Act(sys, DispatchAll);
            (t.drv.life.Complete? || t.drv.life.Error?) <==> IRQ_DMA in sys.soc.intc.enable
  {
    hide Act;
    if IRQ_DMA in sys.soc.intc.enable {
      DueDispatch(sys);
    } else {
      EarlyDispatch(sys);
    }
  }

  lemma WaitingStep(sys: Sys, t: Sys, a: Action, spent: nat)
    requires Waiting(sys, t, spent) && Quiet(sys.isr) && Disciplined(a)
    requires a.DispatchAll? ==> t.soc.dma.phase.Busy? || IRQ_DMA !in t.soc.intc.enable
    ensures Waiting(sys, Act(t, a), spent + if a == Action.Soc(Step) && !t.soc.dma.stuck then 1 else 0)
  {
    hide Act, Coupled;
    QuietVectors(sys.isr, t.isr);
    if a.DispatchAll? {
      EarlyDispatch(t);
      StillActive(t, Act(t, a));
    } else {
      WaitStep(t, a);
    }
  }

  lemma QuietVectors(i: IsrState, j: IsrState)
    requires SameVectors(i, j) && Quiet(i)
    ensures Quiet(j)
  {
  }

  lemma StillActive(t: Sys, u: Sys)
    requires t.drv.life.Active? && SameDriver(t.drv, u.drv)
    ensures u.drv.life.Active?
  {
  }

  /** Through any disciplined run, dispatches included, an ACTIVE driver stays ACTIVE as long as no dispatch is due, and
      the engine has exactly the unfrozen ticks less to go; once they are used up it is finished, and stays so. */
  lemma {:induction false} WaitingCounts(sys: Sys, acts: seq<Action>)
    requires Coupled(sys) && sys.drv.life.Active? && Quiet(sys.isr) && AllDisciplined(acts)
    requires forall k :: 0 <= k < |acts| ==> !Due(sys, acts, k)
    ensures Waiting(sys, Perform(sys, acts), Unfrozen(sys, acts))
    decreases |acts|
  {
    hide Act, Coupled, Quiet;
    if acts == [] {
      FreshStart(sys);
    } else {
      var n := |acts| - 1;
      var init := acts[..n];
      forall k | 0 <= k < n
        ensures !Due(sys, init, k)
      {
        assert init[..k] == acts[..k];
        assert !Due(sys, acts, k);
      }
      WaitingCounts(sys, init);
      assert !Due(sys, acts, n);
      WaitingStep(sys, Perform(sys, init), acts[n], Unfrozen(sys, init));
    }
  }

  lemma FreshStart(sys: Sys)
    requires Coupled(sys) && sys.drv.life.Active?
    ensures Waiting(sys, sys, 0)
  {
  }

  /** The k-th action completes the transfer: ACTIVE until then, the outcome of the engine afterwards. */
  ghost predicate CompletesAt(sys: Sys, acts: seq<Action>, k: nat)
    requires k < |acts|
  {
    var before, after := Perform(sys, acts[..k]), Perform(sys, acts[..k + 1]);
    && (forall j :: 0 <= j <= k ==> Perform(sys, acts[..j]).drv.life.Active?)
    && (before.soc.dma.phase.Done? || before.soc.dma.phase.Failed?)
    && after.drv.life == (if before.soc.dma.phase.Done? then Complete else Error)
    && (before.soc.dma.phase.Failed? ==> after.drv.errLatch == before.soc.dma.phase.code)
    && after.soc.dma.phase.Idle?
    && Coupled(after)
  }

  predicate FirstDue(sys: Sys, acts: seq<Action>, k: nat)
    requires k < |acts|
  {
    Due(sys, acts, k) && forall j :: 0 <= j < k ==> !Due(sys, acts, j)
  }

  lemma WaitingPrefix(sys: Sys, acts: seq<Action>, k: nat)
    requires Coupled(sys) && sys.drv.life.Active? && Quiet(sys.isr) && AllDisciplined(acts)
    requires k <= |acts| && forall j :: 0 <= j < k ==> !Due(sys, acts, j)
    ensures Waiting(sys, Perform(sys, acts[..k]), Unfrozen(sys, acts[..k]))
  {
    hide Coupled, Quiet, Perform, Waiting, Unfrozen;
    var pre := acts[..k];
    forall j | 0 <= j < k
      ensures !Due(sys, pre, j)
    {
      assert pre[..j] == acts[..j];
      assert !Due(sys, acts, j);
    }
    WaitingCounts(sys, pre);
  }

  /** The driver completes at precisely the first due dispatch, neither before nor later. */
  lemma CompletesAtFirstDue(sys: Sys, acts: seq<Action>, k: nat)
    requires Coupled(sys) && sys.drv.life.Active? && Quiet(sys.isr) && AllDisciplined(acts)
    requires k < |acts| && FirstDue(sys, acts, k)
    ensures CompletesAt(sys, acts, k)
  {
    hide Quiet, Perform, Unfrozen, Act, Coupled;
    forall j | 0 <= j <= k
      ensures Perform(sys, acts[..j]).drv.life.Active?
    {
      WaitingPrefix(sys, acts, j);
    }
    WaitingPrefix(sys, acts, k);
    var before := Perform(sys, acts[..k]);
    QuietVectors(sys.isr, before.isr);
    SettledIsFinished(before);
    DueDispatch(before);
    PerformMore(sys, acts, k);
  }

  lemma SettledIsFinished(sys: Sys)
    requires Coupled(sys) && sys.drv.life.Active? && !sys.soc.dma.phase.Busy?
    ensures sys.soc.dma.phase.Done? || sys.soc.dma.phase.Failed?
  {
  }

  lemma PerformMore(sys: Sys, acts: seq<Action>, k: nat)
    requires k < |acts|
    ensures Perform(sys, acts[..k + 1]) == Act(Perform(sys, acts[..k]), acts[k])
  {
    hide Act;
    assert acts[..k + 1][..k] == acts[..k];
  }

  lemma {:induction false} LeastDue(sys: Sys, acts: seq<Action>, n: nat) returns (k: nat)
    requires n < |acts| && Due(sys, acts, n)
    ensures k <= n && FirstDue(sys, acts, k)
  {
    hide Perform, Unfrozen;
    k := 0;
    while !Due(sys, acts, k)
      invariant k <= n && forall j :: 0 <= j < k ==> !Due(sys, acts, j)
      decreases n - k
    {
      k := k + 1;
    }
  }

  /** A recover brings a finished driver back to IDLE with status 0 and ACTIVE bit 2 clear, and then exactly
      the valid transfers are accepted and run. */
  ghost predicate RecoversToIdle(sys: Sys, src: u32, dst: u32, len: u32) {
    var idle := Act(sys, RecoverIdle);
    var (d, s, rc) := Submit(idle.drv, idle.soc, src, dst, len, true);
    && idle.drv.life.Idle? && StatusOf(idle.soc.dma.phase) == 0 && IRQ_DMA !in idle.soc.intc.active
    && (rc == DMA_OK <==> VlabTransfer(src, dst, len))
    && (rc == DMA_OK ==> d.life.Active? && s.dma.phase == Phase.Busy(Countdown(s.dma.cfg, len), true))
  }

  lemma FinishedRecovers(sys: Sys, src: u32, dst: u32, len: u32)
    requires Coupled(sys) && (sys.drv.life.Complete? || sys.drv.life.Error?)
    ensures RecoversToIdle(sys, src, dst, len)
  {
    hide Submit, Recover, Countdown, VlabTransfer;
    RecoverEffect(sys);
    SubmitEffect(Act(sys, RecoverIdle), src, dst, len, true);
  }

  /** The whole path. From an ACTIVE driver, through any disciplined run, with dispatches anywhere in it and at least the
      remaining number of unfrozen ticks, followed by a dispatch with the DMA line enabled: some dispatch of the run,
      the first due one, completes the transfer with the engine's outcome, the driver being ACTIVE until then; and a
      recover after it leads to IDLE with status 0 and ACTIVE bit 2 clear, where exactly the valid submits run. */
  lemma NoLostCompletion(sys: Sys, acts: seq<Action>, src: u32, dst: u32, len: u32)
    requires Coupled(sys) && sys.drv.life.Active? && Quiet(sys.isr) && AllDisciplined(acts)
    requires Unfrozen(sys, acts) >= Left(sys.soc.dma.phase)
    requires IRQ_DMA in Perform(sys, acts).soc.intc.enable
    ensures var run := acts + [DispatchAll];
            exists k: nat :: k < |run| && FirstDue(sys, run, k) && CompletesAt(sys, run, k)
                             && RecoversToIdle(Perform(sys, run[..k + 1]), src, dst, len)
  {
    hide Quiet, Perform, Unfrozen, Coupled, RecoversToIdle;
    var run := acts + [DispatchAll];
    assert run[..|acts|] == acts;
    var k := LeastDue(sys, run, |acts|);
    CompletesAtFirstDue(sys, run, k);
    FinishedRecovers(Perform(sys, run[..k + 1]), src, dst, len);
  }

  // ---- what an unsafe ACK costs ----

  /** The transfer has ended, nothing announces it any more, and the driver still waits for it. */
  ghost predicate Lost(sys: Sys) {
    Aligned(sys) && Quiet(sys.isr) && sys.drv.life.Active? && !sys.soc.dma.phase.Busy? && IRQ_DMA !in sys.soc.intc.pending
  }

  /** The engine has nothing to announce: settled, or busy without an interrupt. */
  predicate Silent(p: Phase) {
    StatusOf(p) != 0 && (p.Busy? ==> !p.irq && p.remaining >= 1)
  }

  lemma SilentOp(s: SocState, op: Op)
    requires Silent(s.dma.phase) && IRQ_DMA !in s.intc.pending && Polite(op) && op != RaiseLine(IRQ_DMA)
    ensures var t := Exec(s, op);
            && Silent(t.dma.phase) && t.dma.cfg == s.dma.cfg && IRQ_DMA !in t.intc.pending
            && (if op.Step? then CountsDown(s.dma, t.dma) else t.dma.phase == s.dma.phase)
  {
    PoliteExec(s, op);
    match op
    case Step =>
      hide TimerModel.TimerTick, UartTick, PerfModel.Count, Fetch, Deliver;
      TickCounts(s);
    case Rd(addr) => ReadFrame(s, addr);
    case Wr(addr, v) =>
      if addr % 4 == 0 && VlabWindow(addr) == 5 {
        VlabDecode(addr);
      } else {
        hide BusWrite;
        WriteFrame(s, addr, v);
      }
    case _ =>
  }

  lemma LostStep(sys: Sys, a: Action)
    requires Lost(sys) && Disciplined(a) && a != Action.Soc(RaiseLine(IRQ_DMA))
    ensures Lost(Act(sys, a))
  {
    hide Exec, Rounds, Polite;
    match a
    case Soc(op) => SilentOp(sys.soc, op);
    case DispatchAll =>
      DispatchEffect(sys);
      DispatchKeepsConfig(sys);
    case SubmitIrq(_, _, _) =>
    case RecoverIdle =>
  }

  lemma {:induction false} DispatchKeepsConfig(sys: Sys)
    ensures Dispatch(sys).0.soc.dma.cfg == sys.soc.dma.cfg
    ensures Dispatch(sys).0.drv.tables == sys.drv.tables
  {
    hide Rounds;
    RoundsKeepConfig(sys, sys.isr.nLines);
  }

  lemma {:induction false} RoundsKeepConfig(sys: Sys, fuel: nat)
    ensures Rounds(sys, fuel).0.soc.dma.cfg == sys.soc.dma.cfg
    ensures Rounds(sys, fuel).0.drv.tables == sys.drv.tables
    decreases fuel
  {
    hide Round;
    RoundsUnfold(sys, fuel);
    if fuel > 0 {
      RoundKeepsConfig(sys);
      RoundsKeepConfig(Round(sys).0, fuel - 1);
    }
  }

  lemma RoundKeepsConfig(sys: Sys)
    ensures Round(sys).0.soc.dma.cfg == sys.soc.dma.cfg
    ensures Round(sys).0.drv.tables == sys.drv.tables
  {
    hide HalRead, HalWrite, Isr, Run;
    AckRead(sys.soc);
    var (s1, line) := HalRead(sys.soc, INTC_ACK);
    if line < sys.isr.nLines {
      var h := sys.isr.vectors[line];
      var acked := sys.(soc := s1);
      if h.Foreign? {
        RunKeepsConfig(s1, h.behave(s1));
      } else if h.DmaHandler? {
        IsrEffect(acked.drv, acked.soc);
      }
      ClearKeepsConfig(Handle(h, acked).soc, line);
    }
  }

  lemma ClearKeepsConfig(s: SocState, line: u32)
    ensures HalWrite(s, INTC_CLEAR, line).dma == s.dma
  {
    ClearLine(s, line);
  }

  lemma {:induction false} RunKeepsConfig(s: SocState, ops: seq<Op>)
    ensures Run(s, ops).dma.cfg == s.dma.cfg
    decreases |ops|
  {
    hide Exec;
    if ops != [] {
      RunKeepsConfig(s, ops[..|ops| - 1]);
      ExecKeepsConfig(Run(s, ops[..|ops| - 1]), ops[|ops| - 1]);
    }
  }

  lemma ExecKeepsConfig(s: SocState, op: Op)
    ensures Exec(s, op).dma.cfg == s.dma.cfg
  {
    match op
    case Step => TickCounts(s);
    case Rd(addr) => ReadFrame(s, addr);
    case Wr(addr, v) =>
      if addr % 4 == 0 && VlabWindow(addr) == 4 {
        hide Verdict, Countdown;
        VlabDecode(addr);
      } else {
        hide BusWrite;
        WriteFrame(s, addr, v);
      }
    case _ =>
  }

  /** A client that reads ACK when that is unsafe loses the completion for good: in every disciplined run that follows,
      with any number of dispatches, the driver stays ACTIVE, until somebody raises the DMA line again. */
  lemma {:induction false} RawAckLosesCompletion(sys: Sys, acts: seq<Action>)
    requires Coupled(sys) && Quiet(sys.isr) && !SafeOp(sys, Rd(INTC_ACK)) && AllDisciplined(acts)
    requires forall i :: 0 <= i < |acts| ==> acts[i] != Action.Soc(RaiseLine(IRQ_DMA))
    ensures Lost(Perform(Act(sys, Action.Soc(Rd(INTC_ACK))), acts))
    decreases |acts|
  {
    hide BusRead, Lost;
    if acts == [] {
      AckLoses(sys);
    } else {
      hide Act;
      RawAckLosesCompletion(sys, acts[..|acts| - 1]);
      LostStep(Perform(Act(sys, Action.Soc(Rd(INTC_ACK))), acts[..|acts| - 1]), acts[|acts| - 1]);
    }
  }

  lemma AckLoses(sys: Sys)
    requires Coupled(sys) && Quiet(sys.isr) && !SafeOp(sys, Rd(INTC_ACK))
    ensures Lost(Act(sys, Action.Soc(Rd(INTC_ACK))))
  {
    hide BusRead;
    ReadFrame(sys.soc, INTC_ACK);
  }

  // ---- a submit without interrupt ----

  /** The driver waits for a transfer that will not announce its end. */
  ghost predicate Unannounced(sys: Sys) {
    && IsVlab(sys.soc.dma.cfg) && sys.drv.tables == VlabTables() && Quiet(sys.isr)
    && sys.drv.life.Active? && Silent(sys.soc.dma.phase) && IRQ_DMA !in sys.soc.intc.pending
  }

  lemma UnannouncedStep(sys: Sys, a: Action)
    requires Unannounced(sys) && Disciplined(a) && a != Action.Soc(RaiseLine(IRQ_DMA))
    ensures var t := Act(sys, a);
            && Unannounced(t) && t.drv == sys.drv
            && (if a == Action.Soc(Step) then CountsDown(sys.soc.dma, t.soc.dma)
                else t.soc.dma.phase == sys.soc.dma.phase)
  {
    hide Exec, Rounds, Polite;
    match a
    case Soc(op) => SilentOp(sys.soc, op);
    case DispatchAll =>
      DispatchEffect(sys);
      DispatchKeepsConfig(sys);
    case SubmitIrq(_, _, _) =>
    case RecoverIdle =>
  }

  lemma {:induction false} UnannouncedRun(sys: Sys, acts: seq<Action>)
    requires Unannounced(sys) && AllDisciplined(acts)
    requires forall i :: 0 <= i < |acts| ==> acts[i] != Action.Soc(RaiseLine(IRQ_DMA))
    ensures var t := Perform(sys, acts);
            && Unannounced(t) && t.drv == sys.drv
            && (t.soc.dma.phase.Busy? <==> Unfrozen(sys, acts) < Left(sys.soc.dma.phase))
            && (t.soc.dma.phase.Busy? ==> Left(t.soc.dma.phase) == Left(sys.soc.dma.phase) - Unfrozen(sys, acts))
    decreases |acts|
  {
    hide Act, Quiet;
    if acts != [] {
      UnannouncedRun(sys, acts[..|acts| - 1]);
      UnannouncedStep(Perform(sys, acts[..|acts| - 1]), acts[|acts| - 1]);
    }
  }

  /** What a polled submit leads to. Accepted, it makes the driver ACTIVE and runs the engine, whose STATUS shows the end
      after exactly the countdown of unfrozen ticks; but in no disciplined run, dispatches and recovers included, does the
      driver leave ACTIVE until somebody else raises the DMA line. */
  lemma PolledSubmitStaysActive(sys: Sys, src: u32, dst: u32, len: u32, acts: seq<Action>)
    requires Coupled(sys) && Quiet(sys.isr) && sys.drv.life.Idle? && VlabTransfer(src, dst, len)
    requires IRQ_DMA !in sys.soc.intc.pending && AllDisciplined(acts)
    requires forall i :: 0 <= i < |acts| ==> acts[i] != Action.Soc(RaiseLine(IRQ_DMA))
    ensures var active := Act(sys, SubmitPolled(src, dst, len));
            var t := Perform(active, acts);
            && active.drv == sys.drv.(life := Active, doneFlag := 0, errLatch := 0) && t.drv == active.drv
            && IRQ_DMA !in t.soc.intc.pending
            && (StatusOf(t.soc.dma.phase) == 1 <==> Unfrozen(active, acts) < Countdown(sys.soc.dma.cfg, len))
            && StatusOf(t.soc.dma.phase) != 0
  {
    hide Submit, Countdown, VlabTransfer, Quiet, Unfrozen, Perform;
    SubmitEffect(sys, src, dst, len, false);
    UnannouncedRun(Act(sys, SubmitPolled(src, dst, len)), acts);
  }

  /** Such a raise, once the engine has finished and with the line enabled, lets the next dispatch report the outcome. */
  lemma RaiseReportsPolled(sys: Sys)
    requires Unannounced(sys) && !sys.soc.dma.phase.Busy? && IRQ_DMA in sys.soc.intc.enable
    ensures var t := Act(Act(sys, Action.Soc(RaiseLine(IRQ_DMA))), DispatchAll);
            t.drv.life == (if sys.soc.dma.phase.Done? then Complete else Error) && t.soc.dma.phase.Idle?
  {
    hide Rounds;
    DispatchEffect(Act(sys, Action.Soc(RaiseLine(IRQ_DMA))));
  }
}
