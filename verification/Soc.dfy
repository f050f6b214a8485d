/**
 The integrated SoC: bus accesses, the tick, boot. SocState is the machine as a
 value; the class Soc owns the devices and refines it.
 */
module SocModel {
  import opened Words
  import opened Platform
  import opened Bus
  import opened MemoryModel
  import opened PerfModel
  import opened IntcModel
  import opened UartModel
  import opened TimerModel
  import opened DmaModel

  datatype SocState = SocState(rom: Bank, sram: Bank, perf: PerfState, intc: IntcState, uart: UartState,
                               timer: TimerState, dma: DmaState, ticks: u32)

  /** The integrated machine always has VLAB tables, sizes and an effective burst. */
  predicate WellFormed(s: SocState) {
    && s.dma.cfg.regions == VlabMap()
    && s.dma.cfg.periphs == Some(VlabPeriphs())
    && s.dma.cfg.caps == VlabCaps()
    && s.sram.base == SRAM_BASE && |s.sram.data| == SRAM_SIZE && !s.sram.readonly
    && s.rom.base == ROM_BASE && |s.rom.data| == ROM_SIZE && s.rom.readonly
  }

  // ---- bus ----

  function Stalled(s: SocState): SocState {
    s.(perf := Count(s.perf, STALL))
  }

  function ReadWindow(s: SocState, k: int, addr: u32): (SocState, Option<u32>) {
    if k == 0 then (s, MemoryModel.ReadWord(s.rom, addr))
    else if k == 1 then (s, MemoryModel.ReadWord(s.sram, addr))
    else if k == 2 then
      var (u, r) := ReadUart(s.uart, Wrap(addr - UART_BASE));
      (s.(uart := u), r)
    else if k == 3 then (s, ReadTimer(s.timer, Wrap(addr - TIMER_BASE)))
    else if k == 4 then (s, ReadDma(s.dma, Wrap(addr - DMA_BASE)))
    else if k == 5 then
      var (i, r) := ReadIntc(s.intc, Wrap(addr - INTC_BASE));
      (s.(intc := i, perf := Count(s.perf, AckCounts(s.intc, Wrap(addr - INTC_BASE)))), r)
    else if k == 6 then (s, ReadPerf(s.perf, Wrap(addr - PERF_BASE)))
    else (s, None)
  }

  /** A bus read: the machine afterwards and the word, or None for a bus fault. */
  function BusRead(s: SocState, addr: u32): (SocState, Option<u32>) {
    if addr % 4 != 0 then (Stalled(s), None)
    else
      var (s2, r) := ReadWindow(s.(perf := Count(s.perf, ACCESS)), Route(VlabMap(), addr), addr);
      (if r.None? then Stalled(s2) else s2, r)
  }

  function WriteWindow(s: SocState, k: int, addr: u32, v: u32): (SocState, WriteStatus) {
    if k == 0 then
      var m := MemoryModel.WriteWord(s.rom, addr, v);
      if m.None? then (s, BusFault) else (s.(rom := m.value), Ok)
    else if k == 1 then
      var m := MemoryModel.WriteWord(s.sram, addr, v);
      if m.None? then (s, BusFault) else (s.(sram := m.value), Ok)
    else if k == 2 then
      var (u, r) := WriteUart(s.uart, Wrap(addr - UART_BASE), v);
      (s.(uart := u, perf := Count(s.perf, if r.Disabled? then STALL else NOTHING)), r)
    else if k == 3 then
      var t := WriteTimer(s.timer, Wrap(addr - TIMER_BASE), v);
      if t.None? then (s, BusFault) else (s.(timer := t.value), Ok)
    else if k == 4 then
      var off := Wrap(addr - DMA_BASE);
      var d := WriteDma(s.dma, off, v);
      if d.None? then (s, BusFault)
      else (s.(dma := d.value,
               intc := if StartRaises(s.dma, off, v) then Raise(s.intc, IRQ_DMA) else s.intc,
               perf := Count(s.perf, if IsStart(off, v) && s.dma.phase.Busy? then STALL else NOTHING)), Ok)
    else if k == 5 then
      var i := WriteIntc(s.intc, Wrap(addr - INTC_BASE), v);
      if i.None? then (s, BusFault) else (s.(intc := i.value), Ok)
    else if k == 6 then
      var p := WritePerf(s.perf, Wrap(addr - PERF_BASE), v);
      if p.None? then (s, BusFault) else (s.(perf := p.value), Ok)
    else (s, BusFault)
  }

  /** A bus write; a fault counts a stall, a disabled UART counts its own. */
  function BusWrite(s: SocState, addr: u32, v: u32): (SocState, WriteStatus) {
    if addr % 4 != 0 then (Stalled(s), BusFault)
    else
      var (s2, r) := WriteWindow(s.(perf := Count(s.perf, ACCESS)), Route(VlabMap(), addr), addr, v);
      (if r.BusFault? then Stalled(s2) else s2, r)
  }

  // ---- time ----

  function RaiseIf(i: IntcState, c: bool, line: int): IntcState {
    if c then Raise(i, line) else i
  }

  /** The part of a tick before the engine: counters, UART, timer. */
  function BeforeEngine(s: SocState): SocState {
    s.(ticks := Wrap(s.ticks + 1),
       perf := Count(s.perf, TICK),
       uart := UartTick(s.uart),
       timer := TimerTick(s.timer),
       intc := RaiseIf(RaiseIf(s.intc, Completes(s.uart), IRQ_UART),
                       Expires(s.timer) && s.timer.IrqEnabled(), IRQ_TIMER))
  }

  /** One tick of the whole machine. */
  function Tick(s: SocState): SocState {
    var b := BeforeEngine(s);
    var e := EngineTick(b.dma, b.sram, b.uart);
    b.(perf := Count(b.perf, NOTHING.(dmaBytes := e.moved)),
       uart := e.uart, dma := e.dma, sram := e.sram, intc := RaiseIf(b.intc, e.raised, IRQ_DMA))
  }

  function Ticks(s: SocState, n: nat): SocState {
    if n == 0 then s else Tick(Ticks(s, n - 1))
  }

  // ---- operations ----

  /** Everything that can happen to the SoC: a bus access, a tick, an outside interrupt,
      a fault latch. */
  datatype Op =
    | Rd(addr: u32)
    | Wr(addr: u32, value: u32)
    | Step
    | RaiseLine(line: int)
    | StickDma(on: bool)
    | StickUart(on: bool)

  function Exec(s: SocState, op: Op): SocState {
    match op
    case Rd(addr) => BusRead(s, addr).0
    case Wr(addr, value) => BusWrite(s, addr, value).0
    case Step => Tick(s)
    case RaiseLine(line) => s.(intc := Raise(s.intc, line))
    case StickDma(on) => s.(dma := s.dma.(stuck := on))
    case StickUart(on) => s.(uart := s.uart.(stuck := on))
  }

  lemma StepIsTick(s: SocState)
    ensures Exec(s, Step) == Tick(s)
  {
    hide Tick;
  }

  function Run(s: SocState, ops: seq<Op>): SocState
    decreases |ops|
  {
    if ops == [] then s else Exec(Run(s, ops[..|ops| - 1]), ops[|ops| - 1])
  }

  // ---- boot ----

  const BOOT_TICKS := 5

  function Initial(cfg: DmaConfig, uartLatency: u32): SocState {
    SocState(Bank(ROM_BASE, Zeros(ROM_SIZE), true), Bank(SRAM_BASE, Zeros(SRAM_SIZE), false),
             PerfState(0, 0, 0, 0, 0, false, 0), IntcState({}, {}, {}),
             UartState(uartLatency, 0, 0, 0, 0, 0, false, false, [], []),
             TimerState(0, 0, 0, false), DmaState(cfg, 0, 0, 0, 0, Idle, false), 0)
  }

  function VlabConfig(latency: u32, burst: u32): DmaConfig {
    DmaConfig(Effective(latency), Effective(burst), VlabMap(), Some(VlabPeriphs()), VlabCaps())
  }

  function ResetAll(s: SocState): SocState {
    s.(uart := UartReset(s.uart), timer := TimerState(0, 0, 0, false), dma := DmaReset(s.dma),
       intc := IntcState({}, {}, {}))
  }

  /** The image in a cleared ROM (if there is one), SRAM cleared. */
  function Imaged(s: SocState, image: seq<u32>): SocState {
    var z := s.(sram := s.sram.(data := Zeros(|s.sram.data|)));
    if image == [] then z else z.(rom := LoadWords(s.rom.(data := Zeros(|s.rom.data|)), image))
  }

  /** Peripherals reset, counters cleared and enabled, memories loaded. */
  function BootImage(s: SocState, image: seq<u32>): SocState {
    Imaged(ResetAll(s.(ticks := 0)).(perf := PerfState(0, 0, 0, 0, 0, true, 1)), image)
  }

  function Booted(s: SocState, image: seq<u32>): SocState {
    Ticks(BootImage(s, image), BOOT_TICKS)
  }

  class Soc {
    const rom: Memory
    const sram: Memory
    const perf: Perf
    const intc: Intc
    const uart: Uart
    const timer: Timer
    const dma: DmaEngine
    var ticks: u32

    ghost function Repr(): set<object> {
      {this, rom.data, sram.data, perf, intc, uart, uart.txFifo, uart.rxFifo, timer, dma}
    }

    ghost predicate Valid()
      reads Repr()
    {
      && intc.Valid() && uart.Valid() && timer.Valid() && dma.Valid()
      && intc.perf == perf && uart.perf == perf && uart.intc == intc && timer.intc == intc
      && dma.perf == perf && dma.intc == intc && dma.sram == sram && dma.uart == uart
      && rom.data != sram.data
      && rom.data != uart.txFifo && rom.data != uart.rxFifo
      && sram.data != uart.txFifo && sram.data != uart.rxFifo
    }

    function State(): SocState
      requires Valid()
      reads Repr()
    {
      SocState(rom.State(), sram.State(), perf.State(), intc.State(), uart.State(), timer.State(), dma.State(), ticks)
    }

    constructor (latency: u32, burst: u32, uartLatency: u32)
      ensures Valid() && fresh(Repr())
      ensures State() == Initial(VlabConfig(latency, burst), uartLatency) && WellFormed(State())
    {
      var theRom := new Memory(ROM_BASE, ROM_SIZE, true);
      var theSram := new Memory(SRAM_BASE, SRAM_SIZE, false);
      var thePerf := new Perf();
      var theIntc := new Intc(thePerf);
      var theUart := new Uart(uartLatency, thePerf, theIntc);
      var theTimer := new Timer(theIntc);
      var theDma := new DmaEngine(latency, burst, VlabMap(), Some(VlabPeriphs()), Some(VlabCaps()),
                                thePerf, theIntc, theSram, theUart);
      rom, sram, perf, intc, uart, timer, dma := theRom, theSram, thePerf, theIntc, theUart, theTimer, theDma;
      ticks := 0;
    }

    method ResetPeripherals()
      requires Valid()
      modifies Repr()
      ensures Valid() && State() == ResetAll(old(State()))
    {
      uart.Reset();
      timer.Reset();
      dma.Reset();
      intc.Reset();
    }

    method Read(addr: u32) returns (r: Option<u32>)
      requires Valid()
      modifies Repr()
      ensures Valid() && (State(), r) == BusRead(old(State()), addr)
    {
      hide VlabMap, Route, Count, MemoryModel.ReadWord, ReadUart, ReadTimer, ReadDma, ReadPerf, ReadIntc, AckCounts;
      if addr % 4 != 0 {
        perf.CountStall(1);
        return None;
      }
      perf.CountMem();
      var k := Decode(VlabMap(), addr);
      if k == 0 { r := rom.LoadWord(addr); }
      else if k == 1 { r := sram.LoadWord(addr); }
      else if k == 2 { r := uart.Read(Wrap(addr - UART_BASE)); }
      else if k == 3 { r := timer.Read(Wrap(addr - TIMER_BASE)); }
      else if k == 4 { r := dma.Read(Wrap(addr - DMA_BASE)); }
      else if k == 5 { r := intc.Read(Wrap(addr - INTC_BASE)); }
      else if k == 6 { r := perf.Read(Wrap(addr - PERF_BASE)); }
      else {
        perf.CountStall(1);
        return None;
      }
      if r.None? {
        perf.CountStall(1);
      }
    }

    method WriteDevice(k: int, addr: u32, v: u32) returns (r: WriteStatus)
      requires Valid()
      modifies Repr()
      ensures Valid() && (State(), r) == WriteWindow(old(State()), k, addr, v)
    {
      hide WriteUart, WriteTimer, WriteIntc, WritePerf, MemoryModel.WriteWord, StartDma, Verdict, Raise;
      CountNothing(perf.State());
      var ok := false;
      if k == 0 { ok := rom.StoreWord(addr, v); }
      else if k == 1 { ok := sram.StoreWord(addr, v); }
      else if k == 2 {
        r := uart.Write(Wrap(addr - UART_BASE), v);
        return;
      }
      else if k == 3 { ok := timer.Write(Wrap(addr - TIMER_BASE), v); }
      else if k == 4 { ok := dma.Write(Wrap(addr - DMA_BASE), v); }
      else if k == 5 { ok := intc.Write(Wrap(addr - INTC_BASE), v); }
      else if k == 6 { ok := perf.Write(Wrap(addr - PERF_BASE), v); }
      return if ok then Ok else BusFault;
    }

    method Write(addr: u32, v: u32) returns (r: WriteStatus)
      requires Valid()
      modifies Repr()
      ensures Valid() && (State(), r) == BusWrite(old(State()), addr, v)
    {
      hide VlabMap, Route, WriteWindow, Count;
      if addr % 4 != 0 {
        perf.CountStall(1);
        return BusFault;
      }
      perf.CountMem();
      var k := Decode(VlabMap(), addr);
      r := WriteDevice(k, addr, v);
      if r.BusFault? {
        perf.CountStall(1);
      }
    }

    method StepDevices()
      requires Valid()
      modifies `ticks, perf, uart, uart.txFifo, uart.rxFifo, timer, intc
      ensures Valid() && State() == BeforeEngine(old(State()))
    {
      hide UartTick, TimerTick, Completes, Expires, Raise, Count, DmaEngine.Phase;
      ticks := Wrap(ticks + 1);
      perf.Tick();
      uart.Step();
      timer.Step();
    }

    method StepOnce()
      requires Valid()
      modifies Repr()
      ensures Valid() && State() == Tick(old(State()))
    {
      hide BeforeEngine, EngineTick, Raise, Count;
      StepDevices();
      dma.Step();
    }

    method StepMany(n: u32)
      requires Valid()
      modifies Repr()
      ensures Valid() && State() == Ticks(old(State()), n)
    {
      for i := 0 to n
        invariant Valid() && State() == Ticks(old(State()), i)
      {
        StepOnce();
      }
    }

    /** Steps until the predicate holds and answers the number of ticks, cast to int32_t; -1 if
        it holds at none of the first maxTicks ticks. */
    method RunUntil(pred: SocState -> bool, maxTicks: u32) returns (r: int, ghost k: u32)
      requires Valid()
      modifies Repr()
      ensures Valid() && k <= maxTicks && State() == Ticks(old(State()), k)
      ensures forall j :: 0 <= j < k ==> !pred(Ticks(old(State()), j))
      ensures r == if pred(State()) then ToInt32(k) else -1
      ensures !pred(State()) ==> k == maxTicks
    {
      hide Tick;
      var elapsed: u32 := 0;
      k := 0;
      while elapsed < maxTicks
        invariant Valid() && k == elapsed <= maxTicks && State() == Ticks(old(State()), k)
        invariant forall j :: 0 <= j < k ==> !pred(Ticks(old(State()), j))
      {
        if pred(State()) {
          return ToInt32(elapsed), k;
        }
        StepOnce();
        elapsed := elapsed + 1;
        k := elapsed;
      }
      if pred(State()) {
        return ToInt32(elapsed), k;
      }
      return -1, k;
    }

    method Perform(op: Op)
      requires Valid()
      modifies Repr()
      ensures Valid() && State() == Exec(old(State()), op)
    {
      match op {
        case Rd(addr) => var _ := Read(addr);
        case Wr(addr, value) => var _ := Write(addr, value);
        case Step => StepOnce();
        case RaiseLine(line) => intc.RaiseLine(line);
        case StickDma(on) => dma.stuck := on;
        case StickUart(on) => uart.stuck := on;
      }
    }

    method LoadMemories(image: seq<u32>)
      requires Valid()
      modifies rom.data, sram.data
      ensures Valid()
      ensures State() == Imaged(old(State()), image)
    {
      hide MemoryModel.LoadWords, Zeros;
      if |image| > 0 {
        rom.Zero();
        var _ := rom.Load(image);
      }
      sram.Zero();
    }

    method Clear(image: seq<u32>)
      requires Valid()
      modifies Repr()
      ensures Valid() && State() == BootImage(old(State()), image)
    {
      hide ResetAll, Imaged;
      ticks := 0;
      ResetPeripherals();
      perf.ResetCounters();
      perf.enabled := true;
      perf.ctrl := 1;
      LoadMemories(image);
    }

    method Boot(image: seq<u32>)
      requires Valid()
      modifies Repr()
      ensures Valid() && State() == Booted(old(State()), image)
    {
      hide Tick, BootImage;
      Clear(image);
      StepMany(BOOT_TICKS);
    }
  }
}
