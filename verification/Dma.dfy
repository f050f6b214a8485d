/**
 The burst DMA engine. The device keeps separate busy/done/error flags, an error
 code and a countdown; the specification is one phase.
 */
module DmaModel {
  import opened Words
  import opened Regions
  import opened Platform
  import opened MemoryModel
  import opened PerfModel
  import opened IntcModel
  import opened UartModel

  const DMA_SRC_OFF := 0x00
  const DMA_DST_OFF := 0x04
  const DMA_LEN_OFF := 0x08
  const DMA_CTRL_OFF := 0x0C
  const DMA_STATUS_OFF := 0x10
  const DMA_IRQ_CLEAR_OFF := 0x14
  const DMA_ERR_CODE_OFF := 0x18

  const ERR_NONE: u32 := 0
  const ERR_ADDR: u32 := 1
  const ERR_ALIGN: u32 := 2
  const ERR_LEN: u32 := 3
  const ERR_UNSUPPORTED: u32 := 4

  /** Timing and the tables the engine validates against. Without a FIFO table every mapped
      peripheral region is a candidate endpoint. */
  datatype DmaConfig = DmaConfig(latency: pos32, burst: pos32, regions: seq<Region>,
                                 periphs: Option<seq<PeriphEp>>, caps: Caps)

  datatype Phase =
    | Idle
    | Busy(remaining: int, irq: bool)
    | Done
    | Failed(code: u32)

  datatype DmaState = DmaState(cfg: DmaConfig, src: u32, dst: u32, len: u32, ctrl: u32,
                               phase: Phase, stuck: bool)

  /** The engine's endpoint classes: 0 memory, 1 FIFO, 2 device, -1 unmapped, -2 not DMA-capable. */
  function EndpointClass(c: DmaConfig, addr: u32, len: u32): int {
    if c.periphs.Some? then
      if PeriphFind(c.periphs, addr) >= 0 then 1
      else
        var k := FindRegion(c.regions, addr, len);
        if k < 0 then -1
        else if c.regions[k].kind == Sram || c.regions[k].kind == Dram then 0
        else -2
    else EndpointType(c.regions, addr, len)
  }

  /** A listed FIFO whose roles lack the given one. */
  predicate WrongRole(c: DmaConfig, addr: u32, asSource: bool) {
    var k := PeriphFind(c.periphs, addr);
    k >= 0 && !(if asSource then Bit0(c.periphs.value[k].roles) else Bit1(c.periphs.value[k].roles))
  }

  /** Error code a START of this transfer latches on an idle engine; ERR_NONE means accepted. */
  function Verdict(c: DmaConfig, src: u32, dst: u32, len: u32): u32 {
    var align := if c.caps.alignment > 1 then c.caps.alignment else 1;
    if len == 0 || len % align != 0 then ERR_LEN
    else if src % align != 0 || dst % align != 0 then ERR_ALIGN
    else if c.caps.maxTransfer != 0 && len > c.caps.maxTransfer then ERR_UNSUPPORTED
    else EndpointVerdict(c, src, dst, len)
  }

  function EndpointVerdict(c: DmaConfig, src: u32, dst: u32, len: u32): u32 {
    var s := EndpointClass(c, src, len);
    var d := EndpointClass(c, dst, len);
    if s == -1 || d == -1 then ERR_ADDR
    else if s == -2 || d == -2 then ERR_UNSUPPORTED
    else if WrongRole(c, src, true) || WrongRole(c, dst, false) then ERR_UNSUPPORTED
    else if !DirectionSupported(c.caps, s, d) then ERR_UNSUPPORTED
    else ERR_NONE
  }

  /** The countdown a START loads, in the 32-bit arithmetic of the device. */
  function Countdown(c: DmaConfig, len: u32): (r: int)
    ensures 1 <= r < POW31
  {
    var words := Wrap(len + 3) / 4;
    var bursts := Wrap(words + c.burst - 1) / c.burst;
    LoadedWith(words * c.latency + bursts - 1)
  }

  /** A computed duration as it lands in the int32_t countdown: at least one tick. */
  function LoadedWith(t: int): (r: int)
    ensures 1 <= r < POW31
  {
    var r := ToInt32(Wrap(t));
    if r < 1 then 1 else r
  }

  function Effective(x: u32): pos32 {
    if x > 0 then x else 1
  }

  function CapsOrDefault(caps: Option<Caps>): Caps {
    if caps.Some? then caps.value else Caps(4, 0, true, false, false)
  }

  /** START with the given IRQ_ENABLE; ignored while busy. */
  function StartDma(d: DmaState, irq: bool): DmaState
  {
    if d.phase.Busy? then d
    else
      var code := Verdict(d.cfg, d.src, d.dst, d.len);
      d.(phase := if code != ERR_NONE then Failed(code) else Busy(Countdown(d.cfg, d.len), irq))
  }

  function StatusOf(p: Phase): u32 {
    match p
    case Idle => 0
    case Busy(_, _) => 1
    case Done => 2
    case Failed(_) => 4
  }

  function ErrorOf(p: Phase): u32 {
    if p.Failed? then p.code else ERR_NONE
  }

  function ReadDma(d: DmaState, off: u32): Option<u32> {
    if off == DMA_SRC_OFF then Some(d.src)
    else if off == DMA_DST_OFF then Some(d.dst)
    else if off == DMA_LEN_OFF then Some(d.len)
    else if off == DMA_CTRL_OFF then Some(d.ctrl)
    else if off == DMA_STATUS_OFF then Some(StatusOf(d.phase))
    else if off == DMA_ERR_CODE_OFF then Some(ErrorOf(d.phase))
    else None
  }

  function WriteDma(d: DmaState, off: u32, v: u32): Option<DmaState>
  {
    if off == DMA_SRC_OFF then Some(d.(src := v))
    else if off == DMA_DST_OFF then Some(d.(dst := v))
    else if off == DMA_LEN_OFF then Some(d.(len := v))
    else if off == DMA_CTRL_OFF then
      Some((if Bit0(v) then StartDma(d, Bit1(v)) else d).(ctrl := if Bit0(v) then v - 1 else v))
    else if off == DMA_IRQ_CLEAR_OFF then Some(if d.phase.Busy? then d else d.(phase := Idle))
    else None
  }

  /** The write is a START. */
  predicate IsStart(off: u32, v: u32) {
    off == DMA_CTRL_OFF && Bit0(v)
  }

  /** A START that fails validation raises the line at once, if it asked for interrupts. */
  predicate StartRaises(d: DmaState, off: u32, v: u32) {
    IsStart(off, v) && Bit1(v) && !d.phase.Busy? && Verdict(d.cfg, d.src, d.dst, d.len) != ERR_NONE
  }

  lemma OnlyStartsRaise(d: DmaState, off: u32, v: u32)
    ensures StartRaises(d, off, v) ==> WriteDma(d, off, v).Some?
  {
  }

  /** What the engine reads: the RX stream at the RX FIFO address, memory everywhere else. */
  function Fetch(m: Bank, u: UartState, addr: u32, len: u32): (UartState, Option<seq<byte>>) {
    if addr == UART_RXDATA then (AfterDrain(u, len), Some(Delivered(u, len)))
    else (u, ReadBytes(m, addr, len))
  }

  /** Where the engine writes: the stream at the TX FIFO address, memory everywhere else. */
  function Deliver(m: Bank, u: UartState, addr: u32, p: seq<byte>): Option<(Bank, UartState)>
    requires |p| < POW32
  {
    if addr == UART_TXDATA then Some((m, Append(u, p)))
    else match WriteBytes(m, addr, p)
      case None => None
      case Some(m') => Some((m', u))
  }

  /** One engine tick: the new engine, memory and UART, whether the line is raised, and the
      bytes counted. */
  datatype TickResult = TickResult(dma: DmaState, sram: Bank, uart: UartState, raised: bool, moved: nat)

  function Complete(d: DmaState, m: Bank, u: UartState): TickResult
    requires d.phase.Busy?
  {
    var (u1, data) := Fetch(m, u, d.src, d.len);
    var failed := d.(phase := Failed(ERR_ADDR));
    if data.None? then TickResult(failed, m, u1, d.phase.irq, 0)
    else
      Delivers(m, u, d.src, d.len);
      match Deliver(m, u1, d.dst, data.value)
      case None => TickResult(failed, m, u1, d.phase.irq, 0)
      case Some((m2, u2)) => TickResult(d.(phase := Done), m2, u2, d.phase.irq, d.len)
  }

  lemma Delivers(m: Bank, u: UartState, addr: u32, len: u32)
    ensures Fetch(m, u, addr, len).1.Some? ==> |Fetch(m, u, addr, len).1.value| == len
  {
  }

  function EngineTick(d: DmaState, m: Bank, u: UartState): TickResult {
    if !d.phase.Busy? || d.stuck then TickResult(d, m, u, false, 0)
    else if d.phase.remaining > 1 then
      TickResult(d.(phase := Busy(d.phase.remaining - 1, d.phase.irq)), m, u, false, 0)
    else Complete(d, m, u)
  }

  function DmaReset(d: DmaState): DmaState {
    DmaState(d.cfg, 0, 0, 0, 0, Idle, false)
  }

  class DmaEngine {
    const cfg: DmaConfig
    const perf: Perf
    const intc: Intc
    const sram: Memory
    const uart: Uart
    var src: u32
    var dst: u32
    var length: u32
    var ctrl: u32
    var busy: bool
    var done: bool
    var error: bool
    var errCode: u32
    var remaining: int
    var irqLatched: bool
    var stuck: bool

    /** At most one flag is up, the error code is nonzero exactly with the error flag, a busy
        engine has ticks left, and CTRL never holds START. */
    ghost predicate Valid()
      reads this
    {
      Consistent() && (busy ==> 1 <= remaining < POW31)
    }

    ghost predicate Consistent()
      reads this
    {
      && !(busy && done) && !(busy && error) && !(done && error)
      && (error <==> errCode != ERR_NONE)
      && !Bit0(ctrl)
      && sram.data != uart.txFifo && sram.data != uart.rxFifo
    }

    function Phase(): Phase
      reads this
    {
      if busy then Busy(remaining, irqLatched)
      else if done then Done
      else if error then Failed(errCode)
      else Idle
    }

    function State(): DmaState
      reads this
    {
      DmaState(cfg, src, dst, length, ctrl, Phase(), stuck)
    }

    /** Zero latency or burst counts as one; absent capabilities mean aligned memory-to-memory transfers only. */
    constructor (latency: u32, burst: u32, regions: seq<Region>, periphs: Option<seq<PeriphEp>>, caps: Option<Caps>,
                 perf: Perf, intc: Intc, sram: Memory, uart: Uart)
      requires sram.data != uart.txFifo && sram.data != uart.rxFifo
      ensures Valid()
      ensures this.perf == perf && this.intc == intc && this.sram == sram && this.uart == uart
      ensures State() == DmaState(DmaConfig(Effective(latency), Effective(burst), regions, periphs, CapsOrDefault(caps)),
                                  0, 0, 0, 0, Idle, false)
    {
      cfg := DmaConfig(if latency > 0 then latency else 1, if burst > 0 then burst else 1, regions, periphs,
                       if caps.Some? then caps.value else Caps(4, 0, true, false, false));
      this.perf, this.intc, this.sram, this.uart := perf, intc, sram, uart;
      src, dst, length, ctrl := 0, 0, 0, 0;
      busy, done, error, errCode := false, false, false, ERR_NONE;
      remaining, irqLatched, stuck := 0, false, false;
    }

    method Reset()
      requires Valid()
      modifies this
      ensures Valid() && State() == DmaReset(old(State()))
    {
      src, dst, length, ctrl := 0, 0, 0, 0;
      busy, done, error, errCode := false, false, false, ERR_NONE;
      remaining, irqLatched, stuck := 0, false, false;
    }

    method Read(off: u32) returns (r: Option<u32>)
      requires Valid()
      ensures r == ReadDma(State(), off)
    {
      if off == DMA_SRC_OFF { return Some(src); }
      if off == DMA_DST_OFF { return Some(dst); }
      if off == DMA_LEN_OFF { return Some(length); }
      if off == DMA_CTRL_OFF { return Some(ctrl); }
      if off == DMA_STATUS_OFF {
        var s := 0;
        if busy { s := s + 1; }
        if done { s := s + 2; }
        if error { s := s + 4; }
        return Some(s);
      }
      if off == DMA_ERR_CODE_OFF { return Some(errCode); }
      return None;
    }

    method Classify(addr: u32, len: u32) returns (k: int)
      ensures k == EndpointClass(cfg, addr, len)
    {
      if cfg.periphs.Some? {
        var e := SearchPeriph(cfg.periphs, addr);
        if e >= 0 {
          return 1;
        }
        var r := SearchRegion(cfg.regions, addr, len);
        if r < 0 {
          return -1;
        }
        if cfg.regions[r].kind == Sram || cfg.regions[r].kind == Dram {
          return 0;
        }
        return -2;
      }
      var r := SearchRegion(cfg.regions, addr, len);
      if r < 0 {
        return -1;
      }
      match cfg.regions[r].kind {
        case Sram | Dram => k := ADDR_MEM;
        case Mmio | Peripheral => k := ADDR_PERIPHERAL;
        case Rom => k := ADDR_DEVICE;
      }
    }

    method Fail(code: u32)
      requires Consistent() && intc.Valid() && code != ERR_NONE
      modifies this, intc
      ensures Valid() && intc.Valid()
      ensures State() == old(State()).(phase := Failed(code))
      ensures irqLatched == old(irqLatched)
      ensures intc.State() == if irqLatched then Raise(old(intc.State()), IRQ_DMA) else old(intc.State())
    {
      busy := false;
      done := false;
      error := true;
      errCode := code;
      if irqLatched {
        intc.RaiseLine(IRQ_DMA);
      }
    }

    /** Endpoint classes, then FIFO roles, then direction. */
    method CheckEndpoints() returns (code: u32)
      ensures code == EndpointVerdict(cfg, src, dst, length)
    {
      var srcType := Classify(src, length);
      var dstType := Classify(dst, length);
      if srcType < 0 || dstType < 0 {
        return if srcType == -1 || dstType == -1 then ERR_ADDR else ERR_UNSUPPORTED;
      }
      if cfg.periphs.Some? {
        var s := SearchPeriph(cfg.periphs, src);
        var d := SearchPeriph(cfg.periphs, dst);
        if (s >= 0 && !Bit0(cfg.periphs.value[s].roles)) || (d >= 0 && !Bit1(cfg.periphs.value[d].roles)) {
          return ERR_UNSUPPORTED;
        }
      }
      if !DirectionSupported(cfg.caps, srcType, dstType) {
        return ERR_UNSUPPORTED;
      }
      return ERR_NONE;
    }

    /** The checks of a START in their order: length, alignment, maximum, endpoints. */
    method Admit() returns (code: u32)
      ensures code == Verdict(cfg, src, dst, length)
    {
      var align := if cfg.caps.alignment > 1 then cfg.caps.alignment else 1;
      if length == 0 || (align > 1 && length % align != 0) {
        return ERR_LEN;
      }
      if align > 1 && (src % align != 0 || dst % align != 0) {
        return ERR_ALIGN;
      }
      if cfg.caps.maxTransfer != 0 && length > cfg.caps.maxTransfer {
        return ERR_UNSUPPORTED;
      }
      code := CheckEndpoints();
    }

    method LoadCountdown()
      modifies this`remaining
      ensures remaining == Countdown(cfg, length)
    {
      var words := Wrap(length + 3) / 4;
      var bursts := Wrap(words + cfg.burst - 1) / cfg.burst;
      remaining := ToInt32(Wrap(words * cfg.latency + bursts - 1));
      if remaining < 1 {
        remaining := 1;
      }
    }

    method Start(irqEnable: bool)
      requires Valid() && intc.Valid()
      modifies this, intc, perf
      ensures Valid() && intc.Valid()
      ensures State() == StartDma(old(State()), irqEnable)
      ensures intc.State() == if irqEnable && !old(busy) && Verdict(cfg, src, dst, length) != ERR_NONE
                              then Raise(old(intc.State()), IRQ_DMA) else old(intc.State())
      ensures perf.State() == Count(old(perf.State()), if old(busy) then STALL else NOTHING)
    {
      hide Verdict, Countdown, Raise, Count;
      CountNothing(perf.State());
      if busy {
        perf.CountStall(1);
        return;
      }
      irqLatched := irqEnable;
      done := false;
      error := false;
      errCode := ERR_NONE;
      var code := Admit();
      if code != ERR_NONE {
        Fail(code);
        return;
      }
      LoadCountdown();
      busy := true;
    }

    method Write(off: u32, v: u32) returns (ok: bool)
      requires Valid() && intc.Valid()
      modifies this, intc, perf
      ensures Valid() && intc.Valid()
      ensures ok == WriteDma(old(State()), off, v).Some?
      ensures State() == if ok then WriteDma(old(State()), off, v).value else old(State())
      ensures intc.State() == if StartRaises(old(State()), off, v)
                              then Raise(old(intc.State()), IRQ_DMA) else old(intc.State())
      ensures perf.State() == Count(old(perf.State()), if IsStart(off, v) && old(busy) then STALL else NOTHING)
    {
      hide Verdict, Countdown, Raise, Count;
      CountNothing(perf.State());
      if off == DMA_SRC_OFF { src := v; return true; }
      if off == DMA_DST_OFF { dst := v; return true; }
      if off == DMA_LEN_OFF { length := v; return true; }
      if off == DMA_CTRL_OFF {
        var irqEnable := Bit1(v);
        if Bit0(v) {
          Start(irqEnable);
        }
        ctrl := if Bit0(v) then v - 1 else v;
        return true;
      }
      if off == DMA_IRQ_CLEAR_OFF {
        done := false;
        error := false;
        errCode := ERR_NONE;
        return true;
      }
      return false;
    }

    /** The reader bridge of the SoC. */
    method ReadBridge(addr: u32, out: array<byte>) returns (ok: bool)
      requires uart.Valid() && out.Length < POW32
      requires out != sram.data && out != uart.txFifo && out != uart.rxFifo
      modifies uart, uart.rxFifo, out
      ensures uart.Valid()
      ensures var f := Fetch(sram.State(), old(uart.State()), addr, out.Length);
              uart.State() == f.0 && ok == f.1.Some? && (ok ==> out[..] == f.1.value)
    {
      if addr == UART_RXDATA {
        uart.DmaRxDrain(out);
        return true;
      }
      ok := sram.CopyOut(addr, out.Length, out);
    }

    /** The writer bridge of the SoC. */
    method WriteBridge(addr: u32, payload: array<byte>) returns (ok: bool)
      requires uart.Valid() && payload.Length < POW32
      requires sram.data != uart.txFifo && sram.data != uart.rxFifo
      requires payload != sram.data && payload != uart.txFifo && payload != uart.rxFifo
      modifies sram.data, uart, uart.txFifo, uart.rxFifo
      ensures uart.Valid()
      ensures var w := Deliver(old(sram.State()), old(uart.State()), addr, payload[..]);
              ok == w.Some?
              && (sram.State(), uart.State()) == if ok then w.value else (old(sram.State()), old(uart.State()))
    {
      if addr == UART_TXDATA {
        uart.DmaTxAppend(payload);
        return true;
      }
      ok := sram.CopyIn(addr, payload);
    }

    /** The transfer through a temporary buffer, once the countdown has run out. */
    method Transfer()
      requires Consistent() && intc.Valid() && uart.Valid() && busy
      modifies this, sram.data, uart, uart.txFifo, uart.rxFifo, intc, perf
      ensures Valid() && intc.Valid() && uart.Valid()
      ensures var t := Complete(old(State()), old(sram.State()), old(uart.State()));
              State() == t.dma && sram.State() == t.sram && uart.State() == t.uart
              && intc.State() == (if t.raised then Raise(old(intc.State()), IRQ_DMA) else old(intc.State()))
              && perf.State() == Count(old(perf.State()), NOTHING.(dmaBytes := t.moved))
    {
      hide Fetch, Deliver, Verdict, Raise, Count, Memory.State, Uart.State, Uart.Valid, Intc.State, Intc.Valid, Perf.State;
      CountNothing(perf.State());
      var tmp := new byte[length](_ => 0);
      var ok := ReadBridge(src, tmp);
      if !ok {
        Fail(ERR_ADDR);
        return;
      }
      ok := WriteBridge(dst, tmp);
      if !ok {
        Fail(ERR_ADDR);
        return;
      }
      busy := false;
      done := true;
      error := false;
      perf.CountDma(length);
      if irqLatched {
        intc.RaiseLine(IRQ_DMA);
      }
    }

    method Step()
      requires Valid() && intc.Valid() && uart.Valid()
      modifies this, sram.data, uart, uart.txFifo, uart.rxFifo, intc, perf
      ensures Valid() && intc.Valid() && uart.Valid()
      ensures var t := EngineTick(old(State()), old(sram.State()), old(uart.State()));
              State() == t.dma && sram.State() == t.sram && uart.State() == t.uart
              && intc.State() == (if t.raised then Raise(old(intc.State()), IRQ_DMA) else old(intc.State()))
              && perf.State() == Count(old(perf.State()), NOTHING.(dmaBytes := t.moved))
    {
      CountNothing(perf.State());
      if !busy {
        return;
      }
      if stuck {
        return;
      }
      remaining := remaining - 1;
      if remaining > 0 {
        return;
      }
      Transfer();
    }
  }
}
