/** What one dispatch does: it drains the pending-and-enabled lines in priority order, and it is bounded. */
module DispatchTheorems {
  import opened Words
  import opened Platform
  import opened Bus
  import opened IntcModel
  import opened SocModel
  import opened Hal
  import opened DmaModel
  import opened DmaDriverModel
  import opened IsrModel
  import opened Access
  import opened LifecycleTheorems

  /** Operations a handler of this line may do without touching the controller beyond its own ACTIVE bit: no tick, no
      interrupt, no ACK, no ENABLE, no START (which could fail and raise), CLEAR only of its own line. */
  predicate LeavesIntc(op: Op, line: int) {
    match op
    case Rd(addr) => addr != INTC_ACK
    case Wr(addr, v) =>
      && !(addr == DMA_CTRL && Bit0(v))
      && addr != INTC_ENABLE
      && (addr == INTC_CLEAR ==> v == line)
    case Step => false
    case RaiseLine(_) => false
    case _ => true
  }

  /** Handlers that raise nothing, with the DMA handler only on its own line. */
  ghost predicate HandlersRaiseNothing(i: IsrState) {
    && (forall k :: 0 <= k < MAX_LINES && i.vectors[k].DmaHandler? ==> k == IRQ_DMA)
    && (forall k :: 0 <= k < MAX_LINES && i.vectors[k].Foreign? ==>
          forall s: SocState :: forall j :: 0 <= j < |i.vectors[k].behave(s)| ==> LeavesIntc(i.vectors[k].behave(s)[j], k))
  }

  /** Such handlers, with every line of the controller configured. */
  ghost predicate RaiseNothing(i: IsrState) {
    i.nLines >= 3 && HandlersRaiseNothing(i)
  }

  /** A set of lines in priority order: TIMER, DMA, UART. */
  function InOrder(g: set<Line>): seq<u32> {
    (if IRQ_TIMER in g then [IRQ_TIMER] else []) + (if IRQ_DMA in g then [IRQ_DMA] else [])
    + (if IRQ_UART in g then [IRQ_UART] else [])
  }

  function Deactivated(i: IntcState, line: Line): IntcState {
    i.(active := i.active - {line})
  }

  lemma LeavesExec(s: SocState, op: Op, line: Line)
    requires LeavesIntc(op, line)
    ensures Deactivated(Exec(s, op).intc, line) == Deactivated(s.intc, line)
  {
    match op
    case Rd(addr) => ReadFrame(s, addr);
    case Wr(addr, v) =>
      if VlabWindow(addr) == 5 && addr % 4 == 0 {
        VlabDecode(addr);
      } else {
        hide BusWrite;
        WriteFrame(s, addr, v);
      }
    case _ =>
  }

  lemma {:induction false} LeavesRun(s: SocState, ops: seq<Op>, line: Line)
    requires forall i :: 0 <= i < |ops| ==> LeavesIntc(ops[i], line)
    ensures Deactivated(Run(s, ops).intc, line) == Deactivated(s.intc, line)
    decreases |ops|
  {
    hide Exec, Deactivated;
    if ops != [] {
      LeavesRun(s, ops[..|ops| - 1], line);
      LeavesExec(Run(s, ops[..|ops| - 1]), ops[|ops| - 1], line);
    }
  }

  /** Servicing a line ends with its ACTIVE bit clear and nothing else of the controller changed. */
  lemma ServiceClears(sys: Sys, line: u32)
    requires RaiseNothing(sys.isr) && line < 3
    ensures var after := Service(sys, line);
            && after.soc.intc == Deactivated(sys.soc.intc, line)
            && after.isr == sys.isr.(dispatched := Wrap(sys.isr.dispatched + 1))
  {
    hide HalWrite, Latch, TwoStepClear, Run;
    var h := sys.isr.vectors[line];
    if h.Foreign? {
      LeavesRun(sys.soc, h.behave(sys.soc), line);
    } else if h.DmaHandler? {
      IsrEffect(sys.drv, sys.soc);
    }
    ClearLine(Handle(h, sys).soc, line);
  }

  /** What the DMA handler makes of the driver, given the engine it finds. */
  function Outcome(d: DriverState, p: Phase): DriverState {
    var counted := d.(irqCount := Wrap(d.irqCount + 1));
    match p
    case Done => counted.(doneFlag := 1, life := Complete)
    case Failed(code) => counted.(errLatch := code, life := Error)
    case _ => counted
  }

  /** The handler latches DONE or the error code, changes nothing but its count without a terminal flag, and leaves
      flags and ACTIVE bit clear. */
  lemma IsrEffect(d: DriverState, s: SocState)
    ensures Isr(d, s).0 == Outcome(d, s.dma.phase)
    ensures SameButPerf(s.(dma := FlagsCleared(s.dma), intc := Deactivated(s.intc, IRQ_DMA)), Isr(d, s).1)
  {
    hide HalRead, TwoStepClear;
    StatusRead(s);
    ErrorRead(HalRead(s, DMA_STATUS).0);
    TwoStepClears(Latch(d, s).1);
  }

  lemma OrderStep(i: IntcState)
    requires Gated(i) != {}
    ensures Highest(i).Some? && Gated(Acked(i)) == Gated(i) - {Highest(i).value}
    ensures InOrder(Gated(i)) == [AckValue(i)] + InOrder(Gated(Acked(i)))
    ensures |Gated(Acked(i))| == |Gated(i)| - 1
  {
    assert Gated(Acked(i)) == Gated(i) - {Highest(i).value};
  }

  /** One round with something to do: the highest line is acknowledged, serviced and gone. */
  lemma RoundDrains(sys: Sys)
    requires RaiseNothing(sys.isr) && Gated(sys.soc.intc) != {}
    ensures var (t, line) := Round(sys);
            && line == Some(AckValue(sys.soc.intc)) && AckValue(sys.soc.intc) < 3
            && t.soc.intc == Deactivated(Acked(sys.soc.intc), AckValue(sys.soc.intc))
            && t.isr == sys.isr.(dispatched := Wrap(sys.isr.dispatched + 1))
  {
    hide HalRead, Service;
    AckRead(sys.soc);
    var (s1, line) := HalRead(sys.soc, INTC_ACK);
    ServiceClears(sys.(soc := s1), line);
  }

  lemma RoundStops(sys: Sys)
    requires Gated(sys.soc.intc) == {}
    ensures SameButPerf(sys.soc, Round(sys).0.soc) && Round(sys).1.None?
    ensures Round(sys).0 == sys.(soc := Round(sys).0.soc)
  {
    hide HalRead, Service;
    AckRead(sys.soc);
    NothingGated(sys.soc.intc);
  }

  lemma NothingGated(i: IntcState)
    requires Gated(i) == {}
    ensures Acked(i) == i && AckValue(i) == NO_LINE
  {
  }

  /** The controller after all gated lines were serviced. */
  function Drained(i: IntcState): IntcState {
    i.(pending := i.pending - Gated(i), active := i.active - Gated(i))
  }

  lemma DrainedStep(i: IntcState)
    requires Gated(i) != {}
    ensures AckValue(i) < 3
    ensures Drained(Deactivated(Acked(i), AckValue(i))) == Drained(i)
  {
    OrderStep(i);
    var l := AckValue(i);
    assert Gated(i) == Gated(Acked(i)) + {l};
    assert Acked(i).pending - Gated(Acked(i)) == i.pending - Gated(i);
    assert Acked(i).active - {l} - Gated(Acked(i)) == i.active - Gated(i);
  }

  lemma {:induction false} RoundsDrain(sys: Sys, fuel: nat)
    requires RaiseNothing(sys.isr)
    requires |Gated(sys.soc.intc)| <= fuel
    ensures var (t, lines) := Rounds(sys, fuel);
            var g := Gated(sys.soc.intc);
            lines == InOrder(g) && |lines| == |g| && t.soc.intc == Drained(sys.soc.intc)
    decreases fuel
  {
    hide Round, Highest, Acked, AckValue, Gated, Drained, InOrder, Deactivated;
    var i := sys.soc.intc;
    RoundsUnfold(sys, fuel);
    if Gated(i) == {} {
      RoundStops(sys);
      DrainedEmpty(i);
    } else {
      OrderStep(i);
      RoundDrains(sys);
      DrainedStep(i);
      GatedDeactivated(Acked(i), AckValue(i));
      RoundsDrain(Round(sys).0, fuel - 1);
    }
  }

  lemma DrainedEmpty(i: IntcState)
    requires Gated(i) == {}
    ensures Drained(i) == i && InOrder(Gated(i)) == []
  {
  }

  lemma GatedDeactivated(i: IntcState, line: Line)
    ensures Gated(Deactivated(i, line)) == Gated(i)
  {
  }

  lemma AtMostThree(g: set<Line>)
    ensures |g| <= 3
  {
    assert g <= {0, 1, 2};
    SubsetSize(g, {0, 1, 2});
  }

  lemma SubsetSize(a: set<Line>, b: set<Line>)
    requires a <= b
    ensures |a| <= |b|
  {
    assert b == a + (b - a);
  }

  /** With handlers that raise nothing, one dispatch services exactly the pending-and-enabled lines, in the
      order TIMER, DMA, UART, answers their number, leaves none of them pending or active, and leaves every
      other pending, active and enable bit alone. */
  lemma DispatchDrains(sys: Sys)
    requires RaiseNothing(sys.isr)
    ensures var (t, lines) := Dispatch(sys);
            var i, g := sys.soc.intc, Gated(sys.soc.intc);
            lines == InOrder(g) && |lines| == |g|
            && t.soc.intc == i.(pending := i.pending - g, active := i.active - g)
  {
    AtMostThree(Gated(sys.soc.intc));
    RoundsDrain(sys, sys.isr.nLines);
  }

  // ---- driver and engine under a dispatch ----

  /** Handlers with the discipline of the lifecycle that also raise nothing. */
  ghost predicate Quiet(i: IsrState) {
    Tame(i) && RaiseNothing(i)
  }

  lemma {:induction false} QuietRun(s: SocState, ops: seq<Op>, line: Line)
    requires AllPolite(ops) && forall i :: 0 <= i < |ops| ==> LeavesIntc(ops[i], line)
    ensures Run(s, ops).dma.phase == s.dma.phase
    decreases |ops|
  {
    hide Exec;
    if ops != [] {
      QuietRun(s, ops[..|ops| - 1], line);
      PoliteExec(Run(s, ops[..|ops| - 1]), ops[|ops| - 1]);
    }
  }

  /** The driver and the engine's phase after a dispatch that services the given lines. */
  function DriverAfter(d: DriverState, p: Phase, lines: set<Line>): DriverState {
    if IRQ_DMA in lines then Outcome(d, p) else d
  }

  function PhaseAfter(p: Phase, lines: set<Line>): Phase {
    if IRQ_DMA in lines && !p.Busy? then Phase.Idle else p
  }

  lemma ServiceEffect(sys: Sys, line: u32)
    requires Quiet(sys.isr) && line < 3
    ensures var t := Service(sys, line);
            t.drv == DriverAfter(sys.drv, sys.soc.dma.phase, {line})
            && t.soc.dma.phase == PhaseAfter(sys.soc.dma.phase, {line})
  {
    hide HalWrite, Run, Isr;
    var h := sys.isr.vectors[line];
    if h.Foreign? {
      QuietRun(sys.soc, h.behave(sys.soc), line);
    } else if h.DmaHandler? {
      IsrEffect(sys.drv, sys.soc);
    }
    ClearLine(Handle(h, sys).soc, line);
  }

  lemma RoundEffect(sys: Sys)
    requires Quiet(sys.isr) && Gated(sys.soc.intc) != {}
    ensures var t, l := Round(sys).0, AckValue(sys.soc.intc);
            && l < 3
            && t.drv == DriverAfter(sys.drv, sys.soc.dma.phase, {l})
            && t.soc.dma.phase == PhaseAfter(sys.soc.dma.phase, {l})
  {
    hide HalRead, Service, DriverAfter, PhaseAfter;
    AckRead(sys.soc);
    var (s1, line) := HalRead(sys.soc, INTC_ACK);
    ServiceEffect(sys.(soc := s1), line);
  }

  lemma AfterBoth(d: DriverState, p: Phase, l: Line, rest: set<Line>)
    requires l !in rest
    ensures DriverAfter(DriverAfter(d, p, {l}), PhaseAfter(p, {l}), rest) == DriverAfter(d, p, {l} + rest)
    ensures PhaseAfter(PhaseAfter(p, {l}), rest) == PhaseAfter(p, {l} + rest)
  {
  }

  lemma {:induction false} RoundsEffect(sys: Sys, fuel: nat)
    requires Quiet(sys.isr) && |Gated(sys.soc.intc)| <= fuel
    ensures var t, g := Rounds(sys, fuel).0, Gated(sys.soc.intc);
            && t.drv == DriverAfter(sys.drv, sys.soc.dma.phase, g)
            && t.soc.dma.phase == PhaseAfter(sys.soc.dma.phase, g)
            && SameVectors(t.isr, sys.isr)
    decreases fuel
  {
    hide Round, Highest, Acked, AckValue, Gated, Deactivated, DriverAfter, PhaseAfter;
    var i := sys.soc.intc;
    RoundsUnfold(sys, fuel);
    if Gated(i) == {} {
      RoundStops(sys);
      NothingServed(sys.drv, sys.soc.dma.phase);
    } else {
      OrderStep(i);
      RoundDrains(sys);
      RoundEffect(sys);
      GatedDeactivated(Acked(i), AckValue(i));
      RoundsEffect(Round(sys).0, fuel - 1);
      GatedSplit(i);
      AfterBoth(sys.drv, sys.soc.dma.phase, AckValue(i), Gated(Acked(i)));
    }
  }

  lemma NothingServed(d: DriverState, p: Phase)
    ensures DriverAfter(d, p, {}) == d && PhaseAfter(p, {}) == p
  {
  }

  lemma GatedSplit(i: IntcState)
    requires Gated(i) != {}
    ensures AckValue(i) < 3 && AckValue(i) !in Gated(Acked(i)) && Gated(i) == {AckValue(i)} + Gated(Acked(i))
  {
    OrderStep(i);
  }

  ghost predicate SameVectors(i: IsrState, j: IsrState) {
    i.vectors == j.vectors && i.nLines == j.nLines
  }

  /** What a dispatch does to driver and engine, whatever state they are in: if the DMA line is pending and enabled the
      outcome is latched once and the flags are cleared, a busy engine runs on; otherwise neither is touched. */
  lemma DispatchEffect(sys: Sys)
    requires Quiet(sys.isr)
    ensures var t, g := Dispatch(sys).0, Gated(sys.soc.intc);
            && t.drv == (if IRQ_DMA in g then Outcome(sys.drv, sys.soc.dma.phase) else sys.drv)
            && t.soc.dma.phase == (if IRQ_DMA in g && !sys.soc.dma.phase.Busy? then Phase.Idle else sys.soc.dma.phase)
            && SameVectors(t.isr, sys.isr)
            && t.soc.intc == Drained(sys.soc.intc)
  {
    AtMostThree(Gated(sys.soc.intc));
    RoundsEffect(sys, sys.isr.nLines);
    RoundsDrain(sys, sys.isr.nLines);
  }

  // ---- a dispatcher that is not wired for the DMA ----

  /** Everything the lifecycle asks of a dispatcher except the wiring of the DMA line. */
  ghost predicate Others(i: IsrState) {
    PoliteHandlers(i) && HandlersRaiseNothing(i)
  }

  lemma UnwiredRound(sys: Sys)
    requires HandlersRaiseNothing(sys.isr) && !Wired(sys.isr)
    ensures Round(sys).0.drv == sys.drv && SameVectors(Round(sys).0.isr, sys.isr)
  {
    hide HalRead, HalWrite, Isr, Run;
    AckRead(sys.soc);
  }

  lemma SameHandlers(i: IsrState, j: IsrState)
    requires SameVectors(i, j) && HandlersRaiseNothing(i)
    ensures HandlersRaiseNothing(j)
  {
  }

  lemma {:induction false} UnwiredRounds(sys: Sys, fuel: nat)
    requires HandlersRaiseNothing(sys.isr) && !Wired(sys.isr)
    ensures Rounds(sys, fuel).0.drv == sys.drv
    decreases fuel
  {
    hide Round, HandlersRaiseNothing;
    RoundsUnfold(sys, fuel);
    if fuel > 0 {
      UnwiredRound(sys);
      SameHandlers(sys.isr, Round(sys).0.isr);
      UnwiredRounds(Round(sys).0, fuel - 1);
    }
  }

  /** The round that answers a line beyond the configured count: the line is acknowledged and nobody is told. */
  lemma BeyondCount(sys: Sys)
    requires AckValue(sys.soc.intc) >= sys.isr.nLines
    ensures Round(sys).1.None? && Round(sys).0.soc.intc == Acked(sys.soc.intc)
  {
    hide HalRead, Service;
    AckRead(sys.soc);
  }

  lemma ServedTimer(sys: Sys)
    requires HandlersRaiseNothing(sys.isr) && sys.isr.nLines == 2 && IRQ_TIMER in Gated(sys.soc.intc)
    ensures Round(sys).1.Some? && SameVectors(Round(sys).0.isr, sys.isr)
    ensures Round(sys).0.soc.intc == Deactivated(Acked(sys.soc.intc), IRQ_TIMER)
  {
    hide HalRead, HalWrite, Run, Isr;
    AckRead(sys.soc);
    var acked := sys.(soc := HalRead(sys.soc, INTC_ACK).0);
    var h := sys.isr.vectors[IRQ_TIMER];
    if h.Foreign? {
      LeavesRun(acked.soc, h.behave(acked.soc), IRQ_TIMER);
    }
    ClearLine(Handle(h, acked).soc, IRQ_TIMER);
  }

  /** Two rounds with two lines configured: TIMER, if due, is serviced, and then the DMA line is acknowledged in vain. */
  lemma TwoLines(sys: Sys)
    requires HandlersRaiseNothing(sys.isr) && sys.isr.nLines == 2 && IRQ_DMA in Gated(sys.soc.intc)
    ensures IRQ_DMA !in Rounds(sys, 2).0.soc.intc.pending
  {
    hide Round;
    RoundsUnfold(sys, 2);
    if IRQ_TIMER in Gated(sys.soc.intc) {
      ServedTimer(sys);
      RoundsUnfold(Round(sys).0, 1);
      BeyondCount(Round(sys).0);
    } else {
      BeyondCount(sys);
    }
  }

  lemma OneLine(sys: Sys)
    requires sys.isr.nLines == 1 && IRQ_DMA in Gated(sys.soc.intc)
    ensures IRQ_DMA in Rounds(sys, 1).0.soc.intc.pending <==> IRQ_TIMER in Gated(sys.soc.intc)
  {
    hide Round;
    RoundsUnfold(sys, 1);
    BeyondCount(sys);
  }

  /** With too few lines or no DMA handler a dispatch with the DMA line due never tells the driver, and it discards the
      interrupt too, unless a single line is configured and a due TIMER is acknowledged in its place. */
  lemma UnwiredDiscards(sys: Sys)
    requires HandlersRaiseNothing(sys.isr) && !Wired(sys.isr) && IRQ_DMA in Gated(sys.soc.intc)
    ensures var t := Dispatch(sys).0;
            && t.drv == sys.drv
            && (IRQ_DMA in t.soc.intc.pending <==> sys.isr.nLines == 1 && IRQ_TIMER in Gated(sys.soc.intc))
  {
    hide Rounds, Gated;
    UnwiredRounds(sys, sys.isr.nLines);
    if sys.isr.nLines == 1 {
      OneLine(sys);
    } else if sys.isr.nLines == 2 {
      TwoLines(sys);
    } else {
      DispatchDrains(sys);
    }
  }

  /** So a due dispatch reports a finished transfer to an ACTIVE driver if and only if the DMA line is configured and has
      its handler. */
  lemma ReportsIffWired(sys: Sys)
    requires Others(sys.isr) && sys.drv.life.Active? && IRQ_DMA in Gated(sys.soc.intc)
    requires sys.soc.dma.phase.Done? || sys.soc.dma.phase.Failed?
    ensures var life := Dispatch(sys).0.drv.life;
            (life.Complete? || life.Error?) <==> Wired(sys.isr)
  {
    hide Rounds;
    if Wired(sys.isr) {
      DispatchEffect(sys);
    } else {
      UnwiredDiscards(sys);
    }
  }

  // ---- the bound, and its price ----

  /** A dispatch names at most as many lines as it has rounds, each of them a configured line. */
  lemma {:induction false} DispatchIsBounded(sys: Sys, fuel: nat)
    ensures |Rounds(sys, fuel).1| <= fuel
    ensures forall k :: 0 <= k < |Rounds(sys, fuel).1| ==> Rounds(sys, fuel).1[k] < sys.isr.nLines
    decreases fuel
  {
    hide HalRead, HalWrite, Handle;
    RoundKeepsVectors(sys);
    if fuel > 0 && Round(sys).1.Some? {
      DispatchIsBounded(Round(sys).0, fuel - 1);
    }
  }

  lemma RoundKeepsVectors(sys: Sys)
    ensures SameVectors(Round(sys).0.isr, sys.isr)
  {
    hide HalRead, HalWrite, Isr, Run;
  }

  /** Operations that neither acknowledge nor mask; raising, ticking and everything else is allowed. */
  predicate KeepsGated(op: Op) {
    match op
    case Rd(addr) => addr != INTC_ACK
    case Wr(addr, v) => addr != INTC_ENABLE
    case _ => true
  }

  ghost predicate TimerKeepsGated(i: IsrState) {
    i.vectors[IRQ_TIMER].Foreign? ==>
      forall s: SocState :: forall j :: 0 <= j < |i.vectors[IRQ_TIMER].behave(s)| ==>
        KeepsGated(i.vectors[IRQ_TIMER].behave(s)[j])
  }

  lemma KeepsGatedExec(s: SocState, op: Op)
    requires KeepsGated(op)
    ensures Exec(s, op).intc.enable == s.intc.enable && s.intc.pending <= Exec(s, op).intc.pending
  {
    match op
    case Step => TickCounts(s);
    case Rd(addr) => ReadFrame(s, addr);
    case Wr(addr, v) =>
      if VlabWindow(addr) == 5 && addr % 4 == 0 {
        VlabDecode(addr);
      } else {
        hide BusWrite;
        WriteFrame(s, addr, v);
      }
    case _ =>
  }

  lemma {:induction false} KeepsGatedRun(s: SocState, ops: seq<Op>)
    requires forall i :: 0 <= i < |ops| ==> KeepsGated(ops[i])
    ensures Run(s, ops).intc.enable == s.intc.enable && s.intc.pending <= Run(s, ops).intc.pending
    decreases |ops|
  {
    hide Exec;
    if ops != [] {
      KeepsGatedRun(s, ops[..|ops| - 1]);
      KeepsGatedExec(Run(s, ops[..|ops| - 1]), ops[|ops| - 1]);
    }
  }

  lemma TimerRound(sys: Sys)
    requires sys.isr.nLines >= 3 && TimerKeepsGated(sys.isr)
    requires IRQ_TIMER in Gated(sys.soc.intc) && IRQ_DMA in Gated(sys.soc.intc)
    ensures var (t, line) := Round(sys);
            && line == Some(IRQ_TIMER) && SameVectors(t.isr, sys.isr) && IRQ_DMA in Gated(t.soc.intc)
            && t.soc.intc.pending == HandledTimer(sys).soc.intc.pending
            && t.soc.intc.enable == sys.soc.intc.enable
  {
    hide HalRead, HalWrite, Run, Isr;
    AckRead(sys.soc);
    var acked := sys.(soc := HalRead(sys.soc, INTC_ACK).0);
    var h := sys.isr.vectors[IRQ_TIMER];
    if h.Foreign? {
      KeepsGatedRun(acked.soc, h.behave(acked.soc));
    } else if h.DmaHandler? {
      IsrEffect(acked.drv, acked.soc);
    }
    ClearLine(Handle(h, acked).soc, IRQ_TIMER);
  }

  /** The system between the TIMER handler and its CLEAR. */
  function HandledTimer(sys: Sys): Sys {
    Handle(sys.isr.vectors[IRQ_TIMER], sys.(soc := HalRead(sys.soc, INTC_ACK).0))
  }

  lemma DmaRound(sys: Sys)
    requires sys.isr.nLines >= 3 && IRQ_TIMER !in Gated(sys.soc.intc) && IRQ_DMA in Gated(sys.soc.intc)
    ensures Round(sys).1 == Some(IRQ_DMA)
  {
    hide HalRead, Service;
    AckRead(sys.soc);
  }

  /** With the DMA line due, the only way a dispatch can miss it is a TIMER line that takes every single round;
      what the handlers of the other lines do does not matter. */
  lemma {:induction false} DmaWaitsIffTimerTakesAll(sys: Sys, fuel: nat)
    requires sys.isr.nLines >= 3 && TimerKeepsGated(sys.isr) && IRQ_DMA in Gated(sys.soc.intc)
    ensures var lines := Rounds(sys, fuel).1;
            (IRQ_DMA !in lines) <==> (|lines| == fuel && forall k :: 0 <= k < fuel ==> lines[k] == IRQ_TIMER)
    decreases fuel
  {
    hide Round, Gated, TimerKeepsGated;
    RoundsUnfold(sys, fuel);
    if fuel > 0 {
      var lines := Rounds(sys, fuel).1;
      if IRQ_TIMER in Gated(sys.soc.intc) {
        TimerRound(sys);
        KeepsAcross(sys);
        DmaWaitsIffTimerTakesAll(Round(sys).0, fuel - 1);
        var rest := Rounds(Round(sys).0, fuel - 1).1;
        assert lines == [IRQ_TIMER] + rest;
        assert forall k :: 0 <= k < |rest| ==> rest[k] == lines[k + 1];
      } else {
        DmaRound(sys);
        assert lines[0] == IRQ_DMA;
      }
    }
  }

  lemma KeepsAcross(sys: Sys)
    requires SameVectors(Round(sys).0.isr, sys.isr) && TimerKeepsGated(sys.isr)
    ensures TimerKeepsGated(Round(sys).0.isr)
  {
    hide Round;
  }

  /** A handler that leaves TIMER pending whatever state it finds. */
  ghost predicate Reraises(h: Handler) {
    h.Foreign? && forall s: SocState :: IRQ_TIMER in Run(s, h.behave(s)).intc.pending
  }

  /** A handler that never makes TIMER pending. */
  ghost predicate NeverRaises(h: Handler) {
    h.Foreign? ==>
      forall s: SocState :: IRQ_TIMER in Run(s, h.behave(s)).intc.pending ==> IRQ_TIMER in s.intc.pending
  }

  /** And that happens: a TIMER handler that always leaves its own line pending again starves a due DMA line
      however many lines are configured. */
  lemma {:induction false} TimerCanStarveDma(sys: Sys, fuel: nat)
    requires sys.isr.nLines >= 3 && TimerKeepsGated(sys.isr) && Reraises(sys.isr.vectors[IRQ_TIMER])
    requires IRQ_TIMER in Gated(sys.soc.intc) && IRQ_DMA in Gated(sys.soc.intc)
    ensures var (t, lines) := Rounds(sys, fuel);
            |lines| == fuel && (forall k :: 0 <= k < fuel ==> lines[k] == IRQ_TIMER)
            && IRQ_DMA in Gated(t.soc.intc)
    decreases fuel
  {
    hide Round, HalRead, Run;
    RoundsUnfold(sys, fuel);
    if fuel > 0 {
      TimerRound(sys);
      KeepsAcross(sys);
      TimerCanStarveDma(Round(sys).0, fuel - 1);
    }
  }

  /** A TIMER handler that does not raise its line leaves it idle after its round. */
  lemma TimerRests(sys: Sys)
    requires sys.isr.nLines >= 3 && TimerKeepsGated(sys.isr) && NeverRaises(sys.isr.vectors[IRQ_TIMER])
    requires IRQ_TIMER in Gated(sys.soc.intc) && IRQ_DMA in Gated(sys.soc.intc)
    ensures IRQ_TIMER !in Gated(Round(sys).0.soc.intc)
  {
    hide Round, HalRead, Run, Isr;
    TimerRound(sys);
    AckRead(sys.soc);
    var acked := HalRead(sys.soc, INTC_ACK).0;
    if sys.isr.vectors[IRQ_TIMER].DmaHandler? {
      IsrEffect(sys.drv, acked);
    }
  }

  /** What a caller can tell before the dispatch: with a TIMER handler that always or never raises its line again, and at
      least two rounds, a due DMA line is missed exactly if TIMER is due too and its handler raises it. */
  lemma DmaMissedIffTimerReraises(sys: Sys, fuel: nat)
    requires sys.isr.nLines >= 3 && TimerKeepsGated(sys.isr) && IRQ_DMA in Gated(sys.soc.intc) && fuel >= 2
    requires Reraises(sys.isr.vectors[IRQ_TIMER]) || NeverRaises(sys.isr.vectors[IRQ_TIMER])
    ensures (IRQ_DMA !in Rounds(sys, fuel).1)
       <==> (IRQ_TIMER in Gated(sys.soc.intc) && Reraises(sys.isr.vectors[IRQ_TIMER]))
  {
    hide Round, Run, Gated, TimerKeepsGated, Reraises, NeverRaises;
    RoundsUnfold(sys, fuel);
    if IRQ_TIMER !in Gated(sys.soc.intc) {
      DmaRound(sys);
      assert Rounds(sys, fuel).1[0] == IRQ_DMA;
    } else if Reraises(sys.isr.vectors[IRQ_TIMER]) {
      TimerCanStarveDma(sys, fuel);
    } else {
      TimerRound(sys);
      TimerRests(sys);
      var next := Round(sys).0;
      DmaRound(next);
      RoundsUnfold(next, fuel - 1);
      assert Rounds(sys, fuel).1[1] == IRQ_DMA;
    }
  }

  // ---- how a dispatcher gets wired ----

  /** A registration stores the handler of a configured line, whichever it is, and no other; beyond the count it is
      ignored. Nothing else of the dispatcher changes. */
  lemma RegisterStores(i: IsrState, line: u32, h: Handler)
    ensures var j := Registered(i, line, h);
            && j.nLines == i.nLines && j.dispatched == i.dispatched
            && (line >= i.nLines ==> j == i)
            && (forall k :: 0 <= k < MAX_LINES ==> j.vectors[k] == if k == line < i.nLines then h else i.vectors[k])
  {
  }

  /** A configuration with 1 to 8 lines takes effect and empties every vector; any other is ignored. */
  lemma ConfigureEmpties(i: IsrState, n: u32)
    ensures var j := Configured(i, n);
            && j.dispatched == i.dispatched
            && (1 <= n <= 8 ==> j.nLines == n && forall k :: 0 <= k < MAX_LINES ==> j.vectors[k] == NoHandler)
            && (n == 0 || n > 8 ==> j == i)
  {
  }

  /** The firmware's set-up: configure, then register the DMA handler. The dispatcher is wired exactly if at least three lines
      were asked for, and all the lifecycle theorems then apply to it. */
  lemma SetUpWires(i: IsrState, n: u32)
    requires 1 <= n <= 8
    ensures var j := Registered(Configured(i, n), IRQ_DMA, DmaHandler);
            (Wired(j) <==> n >= 3) && (Quiet(j) <==> n >= 3) && Others(j)
  {
    hide Registered, Configured;
    ConfigureEmpties(i, n);
    RegisterStores(Configured(i, n), IRQ_DMA, DmaHandler);
  }

  /** Set up this way, a due dispatch reports a finished transfer to an ACTIVE driver exactly for n >= 3. */
  lemma SetUpReports(sys: Sys, i: IsrState, n: u32)
    requires 1 <= n <= 8 && sys.isr == Registered(Configured(i, n), IRQ_DMA, DmaHandler)
    requires sys.drv.life.Active? && IRQ_DMA in Gated(sys.soc.intc)
    requires sys.soc.dma.phase.Done? || sys.soc.dma.phase.Failed?
    ensures var life := Dispatch(sys).0.drv.life;
            (life.Complete? || life.Error?) <==> n >= 3
  {
    hide Registered, Configured, Rounds;
    SetUpWires(i, n);
    ReportsIffWired(sys);
  }
}
