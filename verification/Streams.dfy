/**
 The UART streams over every run: the saturating buffers refine abstract queues, the
 polled driver loses nothing, and a DMA round trip returns what was sent.
 */
module StreamTheorems {
  import opened Words
  import opened UartModel

  // ---- the UART by itself ----

  /** Everything that can happen to the UART. */
  datatype UartOp =
    | Clock
    | RegWrite(off: u32, value: u32)
    | RegRead(off: u32)
    | Sink(payload: seq<byte>)
    | Drain(n: nat)
    | Stick(on: bool)

  function Do(u: UartState, op: UartOp): UartState {
    match op
    case Clock => UartTick(u)
    case RegWrite(off, value) => WriteUart(u, off, value).0
    case RegRead(off) => ReadUart(u, off).0
    case Sink(payload) => Append(u, payload)
    case Drain(n) => AfterDrain(u, n)
    case Stick(on) => u.(stuck := on)
  }

  function DoAll(u: UartState, ops: seq<UartOp>): UartState
    decreases |ops|
  {
    if ops == [] then u else Do(DoAll(u, ops[..|ops| - 1]), ops[|ops| - 1])
  }

  /** Bytes the operation hands to the streams. */
  function Handed(u: UartState, op: UartOp): seq<byte> {
    match op
    case Clock => if Completes(u) then [u.txdata] else []
    case Sink(payload) => payload
    case _ => []
  }

  /** Bytes the operation really takes from the RX queue. */
  function Taken(u: UartState, op: UartOp): seq<byte> {
    if op.Drain? then Drained(u, op.n) else []
  }

  /** All bytes ever handed to the streams. */
  function AllHanded(u: UartState, ops: seq<UartOp>): seq<byte>
    decreases |ops|
  {
    if ops == [] then []
    else AllHanded(u, ops[..|ops| - 1]) + Handed(DoAll(u, ops[..|ops| - 1]), ops[|ops| - 1])
  }

  /** All bytes ever taken from the RX queue. */
  function AllTaken(u: UartState, ops: seq<UartOp>): seq<byte>
    decreases |ops|
  {
    if ops == [] then []
    else AllTaken(u, ops[..|ops| - 1]) + Taken(DoAll(u, ops[..|ops| - 1]), ops[|ops| - 1])
  }

  /** No append found the RX buffer too full. */
  predicate NeverOverflows(u: UartState, ops: seq<UartOp>)
    decreases |ops|
  {
    ops == [] ||
    var init, last := ops[..|ops| - 1], ops[|ops| - 1];
    NeverOverflows(u, init) && |DoAll(u, init).rx| + |Handed(DoAll(u, init), last)| <= FIFO_SIZE
  }

  lemma TakeMore(a: seq<byte>, b: seq<byte>)
    ensures Saturate(Take(a, FIFO_SIZE), b) == Take(a + b, FIFO_SIZE)
  {
  }

  /** From empty streams, over every run: the TX record is the first 16384 bytes of everything handed over; both
      buffers stay within 16384; and as long as no append overflowed RX, what was taken followed by what is
      queued is everything handed over, in order. */
  lemma {:induction false} StreamsAreQueues(u: UartState, ops: seq<UartOp>)
    requires u.tx == [] && u.rx == []
    ensures var t := DoAll(u, ops);
            && t.tx == Take(AllHanded(u, ops), FIFO_SIZE)
            && |t.tx| <= FIFO_SIZE && |t.rx| <= FIFO_SIZE
            && (NeverOverflows(u, ops) ==> AllTaken(u, ops) + t.rx == AllHanded(u, ops))
    decreases |ops|
  {
    hide Do, Handed, Taken, Saturate;
    if ops != [] {
      var init, last := ops[..|ops| - 1], ops[|ops| - 1];
      var v := DoAll(u, init);
      StreamsAreQueues(u, init);
      StreamStep(v, last);
      TakeMore(AllHanded(u, init), Handed(v, last));
      if NeverOverflows(u, ops) {
        Roomy(v.rx, Handed(v, last));
        QueueStep(AllTaken(u, init), v.rx, AllHanded(u, init), Taken(v, last), Do(v, last).rx, Handed(v, last));
      }
    }
  }

  lemma Roomy(q: seq<byte>, p: seq<byte>)
    requires |q| + |p| <= FIFO_SIZE
    ensures Saturate(q, p) == q + p
  {
  }

  lemma QueueStep(taken: seq<byte>, queue: seq<byte>, all: seq<byte>, t: seq<byte>, queue': seq<byte>, h: seq<byte>)
    requires taken + queue == all && t + queue' == queue + h
    ensures (taken + t) + queue' == all + h
  {
    assert (taken + t) + queue' == taken + (t + queue');
    assert taken + (queue + h) == (taken + queue) + h;
  }

  /** One operation appends what it hands over and removes what it takes. */
  lemma StreamStep(u: UartState, op: UartOp)
    requires |u.tx| <= FIFO_SIZE && |u.rx| <= FIFO_SIZE
    ensures var t := Do(u, op);
            t.tx == Saturate(u.tx, Handed(u, op))
            && Taken(u, op) + t.rx == Saturate(u.rx, Handed(u, op))
            && |t.rx| <= FIFO_SIZE
  {
    assert u.tx + [] == u.tx && u.rx + [] == u.rx;
    if op.Drain? {
      assert Taken(u, op) + Do(u, op).rx == u.rx;
    }
  }

  /** A drain of n delivers the oldest bytes of the queue, zeros after them, and always n bytes. */
  lemma DrainDelivers(u: UartState, n: nat)
    ensures var d := Delivered(u, n);
            |d| == n
            && forall i :: 0 <= i < n ==> d[i] == if i < |u.rx| then u.rx[i] else 0
  {
  }

  // ---- the polled driver ----

  /** The driver's write as the UART sees it: refused while disabled or busy, else one TXDATA write. */
  function SendOp(u: UartState, b: byte): seq<UartOp> {
    if Bit0(u.ctrl) && u.busy <= 0 then [RegWrite(UART_TXDATA_OFF, b)] else []
  }

  datatype DriverOp = Send(b: byte) | Other(op: UartOp)

  function Steps(u: UartState, op: DriverOp): seq<UartOp> {
    match op
    case Send(b) => SendOp(u, b)
    case Other(o) => [o]
  }

  function After(u: UartState, ops: seq<DriverOp>): UartState
    decreases |ops|
  {
    if ops == [] then u
    else
      var v := After(u, ops[..|ops| - 1]);
      DoAll(v, Steps(v, ops[|ops| - 1]))
  }

  /** Bytes the driver accepted, in order. */
  function Accepted(u: UartState, ops: seq<DriverOp>): seq<byte>
    decreases |ops|
  {
    if ops == [] then []
    else
      var init, last := ops[..|ops| - 1], ops[|ops| - 1];
      Accepted(u, init) + NewlyAccepted(After(u, init), last)
  }

  function NewlyAccepted(u: UartState, op: DriverOp): seq<byte> {
    if op.Send? && SendOp(u, op.b) != [] then [op.b] else []
  }

  /** Bytes handed to the streams in such a run. */
  function Transmitted(u: UartState, ops: seq<DriverOp>): seq<byte>
    decreases |ops|
  {
    if ops == [] then []
    else
      var init, last := ops[..|ops| - 1], ops[|ops| - 1];
      Transmitted(u, init) + AllHanded(After(u, init), Steps(After(u, init), last))
  }

  function InFlight(u: UartState): seq<byte> {
    if u.busy > 0 then [u.txdata] else []
  }

  /** TXDATA is written only by the driver, and no DMA targets uart-tx. */
  predicate DriverOwnsTx(ops: seq<DriverOp>) {
    forall i :: 0 <= i < |ops| && ops[i].Other? ==>
      !ops[i].op.Sink? && !(ops[i].op.RegWrite? && ops[i].op.off == UART_TXDATA_OFF)
  }

  lemma OneOp(u: UartState, op: UartOp)
    ensures DoAll(u, [op]) == Do(u, op) && AllHanded(u, [op]) == Handed(u, op)
  {
    assert [op][..0] == [];
    assert DoAll(u, []) == u;
    assert [] + Handed(u, op) == Handed(u, op);
  }

  /** Through any interleaving with ticks, freezes, register traffic and drains, the transmitted bytes followed by the
      one in flight are exactly the one in flight at the start and the accepted bytes: none lost, duplicated or reordered. */
  lemma {:induction false} DriverBytesArriveInOrder(u: UartState, ops: seq<DriverOp>)
    requires u.latency < POW31 && DriverOwnsTx(ops)
    ensures Transmitted(u, ops) + InFlight(After(u, ops)) == InFlight(u) + Accepted(u, ops)
    ensures After(u, ops).latency == u.latency
    decreases |ops|
  {
    hide Steps, AllHanded, InFlight, NewlyAccepted, DoAll;
    if ops != [] {
      var init, last := ops[..|ops| - 1], ops[|ops| - 1];
      DriverBytesArriveInOrder(u, init);
      var v := After(u, init);
      SendStep(v, last);
      QueueStep(Transmitted(u, init), InFlight(v), InFlight(u) + Accepted(u, init),
                AllHanded(v, Steps(v, last)), InFlight(After(u, ops)), NewlyAccepted(v, last));
      assert InFlight(u) + (Accepted(u, init) + NewlyAccepted(v, last))
          == (InFlight(u) + Accepted(u, init)) + NewlyAccepted(v, last);
    } else {
      assert [] + InFlight(u) == InFlight(u) + [];
    }
  }

  lemma SendStep(v: UartState, op: DriverOp)
    requires v.latency < POW31 && DriverOwnsTx([op])
    ensures var t := DoAll(v, Steps(v, op));
            AllHanded(v, Steps(v, op)) + InFlight(t) == InFlight(v) + NewlyAccepted(v, op)
            && t.latency == v.latency
  {
    assert [op][0] == op;
    if Steps(v, op) != [] {
      OneOp(v, Steps(v, op)[0]);
    }
  }

  lemma SaturateTwice(q: seq<byte>, a: seq<byte>, b: seq<byte>)
    ensures Saturate(Saturate(q, a), b) == Saturate(q, a + b)
  {
    assert (q + a) + b == q + (a + b);
  }

  /** In such a run the TX record is the old one followed by the transmitted bytes, up to its capacity. */
  lemma {:induction false} TxRecords(u: UartState, ops: seq<DriverOp>)
    requires |u.tx| <= FIFO_SIZE && |u.rx| <= FIFO_SIZE
    ensures var t := After(u, ops);
            t.tx == Saturate(u.tx, Transmitted(u, ops)) && |t.tx| <= FIFO_SIZE && |t.rx| <= FIFO_SIZE
    decreases |ops|
  {
    hide Steps, AllHanded, DoAll, Saturate;
    if ops == [] {
      Roomy(u.tx, []);
      assert u.tx + [] == u.tx;
    } else {
      var init, last := ops[..|ops| - 1], ops[|ops| - 1];
      TxRecords(u, init);
      var v := After(u, init);
      StepRecords(v, last);
      SaturateTwice(u.tx, Transmitted(u, init), AllHanded(v, Steps(v, last)));
    }
  }

  lemma StepRecords(v: UartState, op: DriverOp)
    requires |v.tx| <= FIFO_SIZE && |v.rx| <= FIFO_SIZE
    ensures var t := DoAll(v, Steps(v, op));
            t.tx == Saturate(v.tx, AllHanded(v, Steps(v, op))) && |t.tx| <= FIFO_SIZE && |t.rx| <= FIFO_SIZE
  {
    hide Do, Handed;
    if Steps(v, op) == [] {
      Roomy(v.tx, []);
      assert v.tx + [] == v.tx;
    } else {
      OneOp(v, Steps(v, op)[0]);
      StreamStep(v, Steps(v, op)[0]);
    }
  }

  /** The latency bound is exact: from 2^31 on the count starts negative, so the accepted byte is neither in flight
      nor ever transmitted, however long one waits. */
  lemma {:induction false} HugeLatencyLosesBytes(u: UartState, b: byte, n: nat)
    requires Bit0(u.ctrl) && u.busy <= 0 && u.latency >= POW31
    ensures var sent := DoAll(u, SendOp(u, b));
            var t := DoAll(sent, seq(n, _ => Clock));
            SendOp(u, b) != [] && t == sent && InFlight(t) == [] && AllHanded(sent, seq(n, _ => Clock)) == []
    decreases n
  {
    OneOp(u, RegWrite(UART_TXDATA_OFF, b));
    if n > 0 {
      HugeLatencyLosesBytes(u, b, n - 1);
      var clocks := seq(n, _ => Clock);
      assert clocks[..n - 1] == seq(n - 1, _ => Clock);
    }
  }
}
