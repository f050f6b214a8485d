/** What the polled UART driver does to the machine, and the loopback of a byte. */
module UartTheorems {
  import opened Words
  import opened Platform
  import opened Bus
  import opened PerfModel
  import opened UartModel
  import opened MemoryModel
  import opened SocModel
  import opened Hal
  import opened UartDriverModel
  import opened Access
  import opened StreamTheorems

  lemma StatusPoll(s: SocState)
    ensures var (t, st) := HalRead(s, UART_STATUS);
            SameButPerf(s, t) && (Bit1(st) <==> s.uart.busy <= 0) && (Bit2(st) <==> s.uart.rxValid)
  {
    VlabDecode(UART_STATUS);
  }

  lemma {:induction false} PollMeaning(s: SocState, n: nat)
    requires n > 0
    ensures var (t, ready) := Poll(s, n); SameButPerf(s, t) && (ready <==> s.uart.busy <= 0)
    decreases n
  {
    hide HalRead, Bit1;
    StatusPoll(s);
    if n > 1 && s.uart.busy > 0 {
      PollMeaning(HalRead(s, UART_STATUS).0, n - 1);
    }
  }

  lemma CtrlRead(s: SocState)
    ensures var (t, v) := HalRead(s, UART_CTRL); SameButPerf(s, t) && v == s.uart.ctrl
  {
    VlabDecode(UART_CTRL);
  }

  lemma TxWrite(s: SocState, b: byte)
    ensures SameButPerf(s.(uart := WriteUart(s.uart, UART_TXDATA_OFF, b).0), HalWrite(s, UART_TXDATA, b))
  {
    VlabDecode(UART_TXDATA);
  }

  /** The driver's write is, for the whole machine, one accepted TXDATA write or nothing at all: DISABLED exactly while
      disabled, TIMEOUT exactly while a byte is in flight, and in both cases only counters move. */
  lemma WriteByteMeaning(s: SocState, b: byte)
    ensures var (t, rc) := WriteByte(s, b);
            && SameButPerf(s.(uart := DoAll(s.uart, SendOp(s.uart, b))), t)
            && (rc == UART_ERR_DISABLED <==> !Bit0(s.uart.ctrl))
            && (rc == UART_ERR_TIMEOUT <==> Bit0(s.uart.ctrl) && s.uart.busy > 0)
            && (rc == UART_OK <==> SendOp(s.uart, b) != [])
  {
    hide HalRead, HalWrite, Poll, Bit0, WriteUart;
    CtrlRead(s);
    var s1 := HalRead(s, UART_CTRL).0;
    PollMeaning(s1, POLLS);
    var s2 := Poll(s1, POLLS).0;
    TxWrite(s2, b);
    if SendOp(s.uart, b) != [] {
      OneOp(s.uart, SendOp(s.uart, b)[0]);
    }
  }

  /** n ticks of an unfrozen transmitter: the count goes down by n, and at its end the byte is received. */
  lemma {:induction false} TransmissionRuns(s: SocState, n: nat)
    requires !s.uart.stuck && 0 < n <= s.uart.busy
    ensures var u := Ticks(s, n).uart;
            && u.busy == s.uart.busy - n && u.txdata == s.uart.txdata && !u.stuck
            && (n == s.uart.busy ==> u.rxValid && u.rxdata == s.uart.txdata)
    decreases n
  {
    hide Tick;
    TickUart(s);
    if n == 1 {
      assert Ticks(s, 0) == s;
    } else {
      TransmissionRuns(s, n - 1);
      TickUart(Ticks(s, n - 1));
    }
  }

  /** DMA traffic of the same tick touches only the streams. */
  lemma TickUart(s: SocState)
    ensures var u, v := UartTick(s.uart), Tick(s).uart;
            v == u.(tx := v.tx, rx := v.rx)
  {
    hide UartTick, TimerModel.TimerTick, Count, WriteBytes, ReadBytes;
  }

  /** A byte sent by the driver comes back: after exactly the latency (one tick for latency 0) the
      driver reads the same byte. */
  lemma Loopback(s: SocState, b: byte)
    requires WriteByte(s, b).1 == UART_OK && !s.uart.stuck && s.uart.latency < POW31
    ensures ReadByte(Ticks(WriteByte(s, b).0, StartBusy(s.uart.latency))).1 == Some(b)
  {
    hide WriteByte, Ticks, HalRead, Bit2;
    WriteByteMeaning(s, b);
    OneOp(s.uart, RegWrite(UART_TXDATA_OFF, b));
    var sent := WriteByte(s, b).0;
    TransmissionRuns(sent, StartBusy(s.uart.latency));
    var t := Ticks(sent, StartBusy(s.uart.latency));
    StatusPoll(t);
    RxRead(HalRead(t, UART_STATUS).0);
  }

  lemma RxRead(s: SocState)
    ensures HalRead(s, UART_RXDATA).1 == s.uart.rxdata
  {
    VlabDecode(UART_RXDATA);
  }

  /** A frozen transmitter makes no progress: through any number of ticks the byte stays in flight, and once released
      it takes as long as it still had to go. */
  lemma {:induction false} FrozenWaits(s: SocState, n: nat)
    requires s.uart.stuck && s.uart.busy > 0
    ensures var u := Ticks(s, n).uart;
            u.busy == s.uart.busy && u.txdata == s.uart.txdata && u.rxdata == s.uart.rxdata
            && u.rxValid == s.uart.rxValid && u.stuck && (s.dma.phase.Idle? ==> u == s.uart)
    ensures s.dma.phase.Idle? ==> Ticks(s, n).dma.phase.Idle?
    decreases n
  {
    hide Tick;
    if n > 0 {
      FrozenWaits(s, n - 1);
      FrozenTick(Ticks(s, n - 1));
    }
  }

  lemma FrozenTick(s: SocState)
    requires s.uart.stuck
    ensures var v := Tick(s).uart;
            v == s.uart.(tx := v.tx, rx := v.rx)
            && (s.dma.phase.Idle? ==> v == s.uart && Tick(s).dma.phase.Idle?)
  {
    hide Tick;
    TickUart(s);
    if s.dma.phase.Idle? {
      IdleTick(s);
    }
  }

  lemma IdleTick(s: SocState)
    requires s.dma.phase.Idle?
    ensures Tick(s).uart == UartTick(s.uart) && Tick(s).dma == s.dma
  {
    hide UartTick, TimerModel.TimerTick, Count;
  }

  lemma RxTake(s: SocState)
    ensures var (t, v) := HalRead(s, UART_RXDATA);
            SameButPerf(s.(uart := s.uart.(rxValid := false)), t) && v == s.uart.rxdata
  {
    VlabDecode(UART_RXDATA);
  }

  /** The driver's read: nothing, and nothing changed, exactly while no byte was received; otherwise the byte, once. */
  lemma ReadByteMeaning(s: SocState)
    ensures var (t, r) := ReadByte(s);
            && (r.None? <==> !s.uart.rxValid)
            && (r.None? ==> SameButPerf(s, t))
            && (r.Some? ==> r.value == s.uart.rxdata && SameButPerf(s.(uart := s.uart.(rxValid := false)), t)
                            && ReadByte(t).1.None?)
  {
    hide HalRead, Bit2;
    StatusPoll(s);
    var s1 := HalRead(s, UART_STATUS).0;
    RxTake(s1);
    StatusPoll(HalRead(s1, UART_RXDATA).0);
  }

  // ---- the cost of a write ----

  lemma OneAccess(s: SocState, addr: u32)
    requires UART_BASE <= addr < TIMER_BASE && addr in {UART_STATUS, UART_CTRL}
    ensures HalRead(s, addr).0.perf == Count(s.perf, ACCESS)
  {
    hide Count;
    VlabDecode(addr);
  }

  lemma {:induction false} PollCost(s: SocState, n: nat)
    ensures Poll(s, n).0.perf
         == Count(s.perf, NOTHING.(memAcc := if s.uart.busy > 0 then n else if n == 0 then 0 else 1))
    decreases n
  {
    hide HalRead, Count, Bit1;
    CountNothing(s.perf);
    assert NOTHING.(memAcc := 0) == NOTHING;
    if n > 0 {
      StatusPoll(s);
      OneAccess(s, UART_STATUS);
      var s1 := HalRead(s, UART_STATUS).0;
      if s.uart.busy > 0 {
        PollCost(s1, n - 1);
        AccessThen(s.perf, n - 1);
      }
    }
  }

  lemma TxCost(s: SocState, b: byte)
    requires Bit0(s.uart.ctrl)
    ensures HalWrite(s, UART_TXDATA, b).perf == Count(s.perf, ACCESS)
  {
    hide Count;
    VlabDecode(UART_TXDATA);
    CountNothing(Count(s.perf, ACCESS));
  }

  /** The price of the driver's write in bus accesses: one while disabled, three for a byte accepted, and exactly a thousand
      polls after the first access before it gives up. */
  lemma WriteByteCost(s: SocState, b: byte)
    ensures var (t, rc) := WriteByte(s, b);
            t.perf == Count(s.perf, NOTHING.(memAcc := if rc == UART_ERR_DISABLED then 1
                                                       else if rc == UART_OK then 3 else 1001))
  {
    hide HalRead, HalWrite, Poll, Count, Bit0;
    CtrlRead(s);
    OneAccess(s, UART_CTRL);
    var s1 := HalRead(s, UART_CTRL).0;
    if Bit0(s.uart.ctrl) {
      PollMeaning(s1, POLLS);
      PolledCost(s, s1, POLLS);
      if s.uart.busy <= 0 {
        SentCost(s, Poll(s1, POLLS).0, b);
      }
    }
  }

  lemma PolledCost(s: SocState, s1: SocState, n: nat)
    requires s1.perf == Count(s.perf, ACCESS) && s1.uart == s.uart && n > 0
    ensures Poll(s1, n).0.perf == Count(s.perf, NOTHING.(memAcc := if s.uart.busy > 0 then n + 1 else 2))
  {
    hide Poll, Count;
    PollCost(s1, n);
    AccessThen(s.perf, if s.uart.busy > 0 then n else 1);
  }

  lemma AccessThen(p: PerfState, k: nat)
    ensures Count(Count(p, ACCESS), NOTHING.(memAcc := k)) == Count(p, NOTHING.(memAcc := k + 1))
  {
    hide Count;
    CountTwice(p, ACCESS, NOTHING.(memAcc := k));
    assert ACCESS.Plus(NOTHING.(memAcc := k)) == NOTHING.(memAcc := k + 1);
  }

  lemma SentCost(s: SocState, s2: SocState, b: byte)
    requires s2.perf == Count(s.perf, NOTHING.(memAcc := 2)) && Bit0(s2.uart.ctrl)
    ensures HalWrite(s2, UART_TXDATA, b).perf == Count(s.perf, NOTHING.(memAcc := 3))
  {
    hide Count, HalWrite, Bit0;
    TxCost(s2, b);
    CountTwice(s.perf, NOTHING.(memAcc := 2), ACCESS);
    assert NOTHING.(memAcc := 2).Plus(ACCESS) == NOTHING.(memAcc := 3);
  }
}
