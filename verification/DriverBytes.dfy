/** End to end: bytes accepted by the polled driver leave the SoC once each and in order. */
module DriverBytesTheorems {
  import opened Words
  import opened Platform
  import opened UartModel
  import opened DmaModel
  import opened SocModel
  import opened UartDriverModel
  import opened Access
  import opened TransferTheorems
  import opened StreamTheorems
  import opened RoundTripTheorems
  import opened UartTheorems

  /** The firmware sends a byte, or anything else happens to the machine. */
  datatype Io = Put(b: byte) | Machine(op: Op)

  function IoStep(s: SocState, a: Io): SocState {
    match a
    case Put(b) => WriteByte(s, b).0
    case Machine(op) => Exec(s, op)
  }

  function IoRun(s: SocState, io: seq<Io>): SocState
    decreases |io|
  {
    if io == [] then s else IoStep(IoRun(s, io[..|io| - 1]), io[|io| - 1])
  }

  /** Bytes for which the driver returned OK, in order. */
  function SentOk(s: SocState, io: seq<Io>): seq<byte>
    decreases |io|
  {
    if io == [] then []
    else
      var init, last := io[..|io| - 1], io[|io| - 1];
      SentOk(s, init) + if last.Put? && WriteByte(IoRun(s, init), last.b).1 == UART_OK then [last.b] else []
  }

  function Lift(ops: seq<UartOp>): seq<DriverOp>
    ensures |Lift(ops)| == |ops| && forall i :: 0 <= i < |ops| ==> Lift(ops)[i] == Other(ops[i])
  {
    seq(|ops|, i requires 0 <= i < |ops| => Other(ops[i]))
  }

  /** The same step as the UART sees it. */
  function IoPart(s: SocState, a: Io): seq<DriverOp> {
    match a
    case Put(b) => [Send(b)]
    case Machine(op) => Lift(UartPart(s, op))
  }

  function IoTrace(s: SocState, io: seq<Io>): seq<DriverOp>
    decreases |io|
  {
    if io == [] then []
    else IoTrace(s, io[..|io| - 1]) + IoPart(IoRun(s, io[..|io| - 1]), io[|io| - 1])
  }

  /** No hand-written TXDATA and no DMA aimed at uart-tx. */
  predicate LeavesTxAlone(a: Io) {
    a.Machine? && a.op.Wr? ==> a.op.addr != UART_TXDATA && !(a.op.addr == DMA_DST && a.op.value == UART_TXDATA)
  }

  lemma {:induction false} AfterConcat(u: UartState, a: seq<DriverOp>, b: seq<DriverOp>)
    ensures After(u, a + b) == After(After(u, a), b)
    ensures Accepted(u, a + b) == Accepted(u, a) + Accepted(After(u, a), b)
    decreases |b|
  {
    hide DoAll, StreamTheorems.Steps, NewlyAccepted;
    if b == [] {
      assert a + b == a;
    } else {
      var init := b[..|b| - 1];
      assert (a + b)[..|a + b| - 1] == a + init;
      AfterConcat(u, a, init);
    }
  }

  lemma {:induction false} AfterLift(u: UartState, ops: seq<UartOp>)
    ensures After(u, Lift(ops)) == DoAll(u, ops) && Accepted(u, Lift(ops)) == []
    decreases |ops|
  {
    hide Do;
    if ops != [] {
      var init, last := ops[..|ops| - 1], ops[|ops| - 1];
      assert Lift(ops)[..|ops| - 1] == Lift(init);
      AfterLift(u, init);
      OneOp(DoAll(u, init), last);
    }
  }

  lemma OneSend(u: UartState, b: byte)
    ensures After(u, [Send(b)]) == DoAll(u, SendOp(u, b))
    ensures Accepted(u, [Send(b)]) == if SendOp(u, b) != [] then [b] else []
  {
    hide DoAll, SendOp;
    assert [Send(b)][..0] == [];
    assert After(u, []) == u;
  }

  /** What one step means for the UART, and that TXDATA stays the driver's. */
  predicate FollowsTrace(s: SocState, a: Io) {
    var t := IoStep(s, a);
    && t.uart == After(s.uart, IoPart(s, a))
    && t.dma.dst != UART_TXDATA
    && DriverOwnsTx(IoPart(s, a))
    && Accepted(s.uart, IoPart(s, a)) == if a.Put? && WriteByte(s, a.b).1 == UART_OK then [a.b] else []
  }

  lemma PutStep(s: SocState, b: byte)
    requires s.dma.dst != UART_TXDATA
    ensures FollowsTrace(s, Put(b))
  {
    hide WriteByte, DoAll, After, Accepted, SendOp;
    WriteByteMeaning(s, b);
    OneSend(s.uart, b);
  }

  lemma MachineStep(s: SocState, op: Op)
    requires LeavesTxAlone(Machine(op)) && s.dma.dst != UART_TXDATA
    ensures FollowsTrace(s, Machine(op))
  {
    hide Exec, DoAll, After, Accepted, UartPart, Lift, DriverOwnsTx;
    UartStep(s, op);
    AfterLift(s.uart, UartPart(s, op));
    NewDestination(s, op);
    OwnsTx(s, op);
  }

  lemma OwnsTx(s: SocState, op: Op)
    requires LeavesTxAlone(Machine(op)) && s.dma.dst != UART_TXDATA
    ensures DriverOwnsTx(Lift(UartPart(s, op)))
  {
    hide Fetch;
  }

  lemma EachStep(s: SocState, a: Io)
    requires LeavesTxAlone(a) && s.dma.dst != UART_TXDATA
    ensures FollowsTrace(s, a)
  {
    hide FollowsTrace;
    match a
    case Put(b) => PutStep(s, b);
    case Machine(op) => MachineStep(s, op);
  }

  lemma NewDestination(s: SocState, op: Op)
    ensures Exec(s, op).dma.dst == if op.Wr? && op.addr == DMA_DST then op.value else s.dma.dst
  {
    hide BusRead, BusWrite, Tick, Verdict, Countdown;
    match op
    case Step => LifecycleTheorems.TickCounts(s);
    case Rd(addr) => ReadFrame(s, addr);
    case Wr(addr, v) => EngineWrite(s, addr, v);
    case _ =>
  }

  lemma {:induction false} IoTraceRuns(s: SocState, io: seq<Io>)
    requires s.dma.dst != UART_TXDATA && forall i :: 0 <= i < |io| ==> LeavesTxAlone(io[i])
    ensures var t, trace := IoRun(s, io), IoTrace(s, io);
            && t.uart == After(s.uart, trace) && t.dma.dst != UART_TXDATA
            && DriverOwnsTx(trace) && Accepted(s.uart, trace) == SentOk(s, io)
    decreases |io|
  {
    hide IoStep, IoPart, After, Accepted, WriteByte;
    if io == [] {
      EmptyTrace(s.uart);
    } else {
      var init, last := io[..|io| - 1], io[|io| - 1];
      IoTraceRuns(s, init);
      EachStep(IoRun(s, init), last);
      AfterConcat(s.uart, IoTrace(s, init), IoPart(IoRun(s, init), last));
    }
  }

  lemma EmptyTrace(u: UartState)
    ensures After(u, []) == u && Accepted(u, []) == []
  {
  }

  /** In every run of the machine in which only the driver writes TXDATA and no DMA is aimed at uart-tx, the bytes the
      UART has transmitted, followed by the one in flight, are the bytes the driver accepted, in order. */
  lemma SocBytesArriveInOrder(s: SocState, io: seq<Io>)
    requires s.uart.latency < POW31 && s.uart.busy <= 0 && s.dma.dst != UART_TXDATA
    requires forall i :: 0 <= i < |io| ==> LeavesTxAlone(io[i])
    ensures Transmitted(s.uart, IoTrace(s, io)) + InFlight(IoRun(s, io).uart) == SentOk(s, io)
    ensures IoRun(s, io).uart == After(s.uart, IoTrace(s, io))
  {
    IoTraceRuns(s, io);
    DriverBytesArriveInOrder(s.uart, IoTrace(s, io));
    assert [] + SentOk(s, io) == SentOk(s, io);
  }

  /** What the driver sent is what the machine records: in such a run the TX record is the old one followed by the bytes
      the driver accepted, short of the one in flight, up to the record's 16384 bytes. */
  lemma TxRecordIsSent(s: SocState, io: seq<Io>)
    requires s.uart.latency < POW31 && s.uart.busy <= 0 && s.dma.dst != UART_TXDATA
    requires forall i :: 0 <= i < |io| ==> LeavesTxAlone(io[i])
    requires |s.uart.tx| <= FIFO_SIZE && |s.uart.rx| <= FIFO_SIZE
    ensures var u, sent := IoRun(s, io).uart, SentOk(s, io);
            && |InFlight(u)| <= |sent|
            && u.tx == Saturate(s.uart.tx, sent[..|sent| - |InFlight(u)|])
            && (InFlight(u) != [] ==> InFlight(u) == [sent[|sent| - 1]])
  {
    hide IoRun, SentOk, IoTrace, After, Transmitted;
    SocBytesArriveInOrder(s, io);
    TxRecords(s.uart, IoTrace(s, io));
    var u, sent := IoRun(s, io).uart, SentOk(s, io);
    assert sent[..|sent| - |InFlight(u)|] == Transmitted(s.uart, IoTrace(s, io));
  }
}
