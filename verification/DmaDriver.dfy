/**
 The firmware DMA driver: its own validation of a transfer, programming of the
 engine, and the interrupt-driven lifecycle.
 */
module DmaDriverModel {
  import opened Words
  import opened Regions
  import opened Platform
  import opened SocModel
  import opened Hal

  const DMA_OK := 0
  const DMA_ERR_ADDR := -1
  const DMA_ERR_ALIGN := -2
  const DMA_ERR_LEN := -3
  const DMA_ERR_BUSY := -4
  const DMA_ERR_UNSUPPORTED := -5

  datatype Lifecycle = Idle | Starting | Active | Complete | Error | Recovery

  /** What the driver validates against: map, capabilities and FIFO table, each possibly not installed. */
  datatype Tables = Tables(regions: seq<Region>, caps: Option<Caps>, periphs: Option<seq<PeriphEp>>)

  datatype DriverState = DriverState(tables: Tables, life: Lifecycle, doneFlag: u32, errLatch: u32, irqCount: u32)

  function VlabTables(): Tables {
    Tables(VlabMap(), Some(VlabCaps()), Some(VlabPeriphs()))
  }

  // ---- validation ----

  datatype EpKind = Unmapped | Memory | Fifo(index: nat) | Incapable

  function Classify(t: Tables, addr: u32, len: u32): EpKind {
    var e := PeriphFind(t.periphs, addr);
    if e >= 0 then Fifo(e)
    else
      var k := FindRegion(t.regions, addr, len);
      if k < 0 then Unmapped
      else if t.regions[k].kind == Sram || t.regions[k].kind == Dram then Memory
      else Incapable
  }

  function AddrType(k: EpKind): int {
    if k.Memory? then ADDR_MEM else ADDR_PERIPHERAL
  }

  /** The checks on the endpoints: strict against a FIFO table, region-based without one. */
  function CheckEndpoints(t: Tables, src: u32, dst: u32, len: u32): int {
    if t.periphs.Some? then
      var a, b := Classify(t, src, len), Classify(t, dst, len);
      if a.Unmapped? || b.Unmapped? then DMA_ERR_ADDR
      else if a.Incapable? || b.Incapable? then DMA_ERR_UNSUPPORTED
      else if a.Fifo? && !Bit0(t.periphs.value[a.index].roles) then DMA_ERR_UNSUPPORTED
      else if b.Fifo? && !Bit1(t.periphs.value[b.index].roles) then DMA_ERR_UNSUPPORTED
      else if t.caps.Some? && !DirectionSupported(t.caps.value, AddrType(a), AddrType(b)) then DMA_ERR_UNSUPPORTED
      else DMA_OK
    else
      var a, b := EndpointType(t.regions, src, len), EndpointType(t.regions, dst, len);
      if a < 0 || b < 0 then DMA_ERR_ADDR
      else if t.caps.Some? && !DirectionSupported(t.caps.value, a, b) then DMA_ERR_UNSUPPORTED
      else DMA_OK
  }

  function Check(t: Tables, src: u32, dst: u32, len: u32): int {
    var align := if t.caps.Some? && t.caps.value.alignment > 1 then t.caps.value.alignment else 1;
    if len == 0 || (align > 1 && len % align != 0) then DMA_ERR_LEN
    else if align > 1 && (src % align != 0 || dst % align != 0) then DMA_ERR_ALIGN
    else if t.caps.Some? && t.caps.value.maxTransfer != 0 && len > t.caps.value.maxTransfer then DMA_ERR_UNSUPPORTED
    else CheckEndpoints(t, src, dst, len)
  }

  function Validate(t: Tables, s: SocState, src: u32, dst: u32, len: u32): (SocState, int) {
    var (s1, st) := HalRead(s, DMA_STATUS);
    (s1, if Bit0(st) then DMA_ERR_BUSY else Check(t, src, dst, len))
  }

  // ---- operations ----

  /** SRC, DST, LEN, then CTRL with START. */
  function Program(s: SocState, src: u32, dst: u32, len: u32, irq: bool): SocState {
    HalWrite(HalWrite(HalWrite(HalWrite(s, DMA_SRC, src), DMA_DST, dst), DMA_LEN, len),
             DMA_CTRL, if irq then 3 else 1)
  }

  function StartTransfer(d: DriverState, s: SocState, src: u32, dst: u32, len: u32, irq: bool): (SocState, int) {
    var (s1, rc) := Validate(d.tables, s, src, dst, len);
    if rc != DMA_OK then (s1, rc) else (Program(s1, src, dst, len, irq), DMA_OK)
  }

  function Submit(d: DriverState, s: SocState, src: u32, dst: u32, len: u32, irq: bool): (DriverState, SocState, int) {
    if !d.life.Idle? then (d, s, DMA_ERR_BUSY)
    else
      var (s1, rc) := StartTransfer(d, s, src, dst, len, irq);
      (if rc != DMA_OK then d else d.(life := Active, doneFlag := 0, errLatch := 0), s1, rc)
  }

  /** DMA flags first, then the controller's ACTIVE bit. */
  function TwoStepClear(s: SocState): SocState {
    HalWrite(HalWrite(s, DMA_IRQ_CLEAR, 1), INTC_CLEAR, IRQ_DMA)
  }

  /** Samples the terminal flags into the driver's own latches; neither flag is a spurious interrupt. */
  function Latch(d: DriverState, s: SocState): (DriverState, SocState) {
    var (s1, st) := HalRead(s, DMA_STATUS);
    if Bit1(st) then (d.(doneFlag := 1, life := Complete), s1)
    else if Bit2(st) then
      var (s2, code) := HalRead(s1, DMA_ERR_CODE);
      (d.(errLatch := code, life := Error), s2)
    else (d, s1)
  }

  function Isr(d: DriverState, s: SocState): (DriverState, SocState) {
    var (d1, s1) := Latch(d, s);
    (d1.(irqCount := Wrap(d1.irqCount + 1)), TwoStepClear(s1))
  }

  function Recover(d: DriverState, s: SocState): (DriverState, SocState) {
    if d.life.Error? || d.life.Complete? then (d.(life := Idle, doneFlag := 0, errLatch := 0), TwoStepClear(s))
    else (d, s)
  }

  class DmaDriver {
    const soc: Soc
    var regions: seq<Region>
    var caps: Option<Caps>
    var periphs: Option<seq<PeriphEp>>
    var life: Lifecycle
    var doneFlag: u32
    var errLatch: u32
    var irqCount: u32

    ghost predicate Valid()
      reads this, soc.Repr()
    {
      soc.Valid() && this !in soc.Repr()
    }

    function Installed(): Tables
      reads this
    {
      Tables(regions, caps, periphs)
    }

    function State(): DriverState
      reads this
    {
      DriverState(Installed(), life, doneFlag, errLatch, irqCount)
    }

    constructor (soc: Soc)
      requires soc.Valid()
      ensures Valid() && this.soc == soc
      ensures State() == DriverState(Tables([], None, None), Idle, 0, 0, 0)
    {
      this.soc := soc;
      regions, caps, periphs := [], None, None;
      life, doneFlag, errLatch, irqCount := Idle, 0, 0, 0;
    }

    /** The VLAB defaults. */
    method Init()
      modifies this
      ensures State() == old(State()).(tables := VlabTables())
    {
      regions, caps, periphs := VlabMap(), Some(VlabCaps()), Some(VlabPeriphs());
    }

    /** Overrides of the map and the capabilities; an empty map or absent capabilities keep the old ones. */
    method Configure(table: seq<Region>, newCaps: Option<Caps>)
      modifies this
      ensures State() == old(State()).(tables := Tables(if table == [] then old(regions) else table,
                                                        if newCaps.None? then old(caps) else newCaps,
                                                        old(periphs)))
    {
      if |table| > 0 {
        regions := table;
      }
      if newCaps.Some? {
        caps := newCaps;
      }
    }

    method ConfigurePeriph(table: Option<seq<PeriphEp>>)
      modifies this
      ensures State() == old(State()).(tables := Tables(old(regions), old(caps), table))
    {
      periphs := table;
    }

    method ClassifyEndpoint(addr: u32, len: u32) returns (k: EpKind)
      ensures k == Classify(Installed(), addr, len)
    {
      var e := SearchPeriph(periphs, addr);
      if e >= 0 {
        return Fifo(e);
      }
      var r := SearchRegion(regions, addr, len);
      if r < 0 {
        return Unmapped;
      }
      return if regions[r].kind == Sram || regions[r].kind == Dram then Memory else Incapable;
    }

    method RegionType(addr: u32, len: u32) returns (t: int)
      ensures t == EndpointType(regions, addr, len)
    {
      var r := SearchRegion(regions, addr, len);
      if r < 0 {
        return -1;
      }
      match regions[r].kind {
        case Sram | Dram => t := ADDR_MEM;
        case Mmio | Peripheral => t := ADDR_PERIPHERAL;
        case Rom => t := ADDR_DEVICE;
      }
    }

    method ValidateEndpoints(src: u32, dst: u32, len: u32) returns (rc: int)
      ensures rc == CheckEndpoints(Installed(), src, dst, len)
    {
      var srcType, dstType;
      if periphs.Some? {
        var s := ClassifyEndpoint(src, len);
        var d := ClassifyEndpoint(dst, len);
        if s.Unmapped? || d.Unmapped? { return DMA_ERR_ADDR; }
        if s.Incapable? || d.Incapable? { return DMA_ERR_UNSUPPORTED; }
        if s.Fifo? && !Bit0(periphs.value[s.index].roles) { return DMA_ERR_UNSUPPORTED; }
        if d.Fifo? && !Bit1(periphs.value[d.index].roles) { return DMA_ERR_UNSUPPORTED; }
        srcType := if s.Memory? then ADDR_MEM else ADDR_PERIPHERAL;
        dstType := if d.Memory? then ADDR_MEM else ADDR_PERIPHERAL;
      } else {
        srcType := RegionType(src, len);
        dstType := RegionType(dst, len);
        if srcType < 0 || dstType < 0 { return DMA_ERR_ADDR; }
      }
      if caps.Some? && !DirectionSupported(caps.value, srcType, dstType) { return DMA_ERR_UNSUPPORTED; }
      return DMA_OK;
    }

    method ValidateTransfer(src: u32, dst: u32, len: u32) returns (rc: int)
      requires Valid()
      modifies soc.Repr()
      ensures Valid() && (soc.State(), rc) == Validate(Installed(), old(soc.State()), src, dst, len)
    {
      hide HalRead, CheckEndpoints;
      var st := ReadReg(soc, DMA_STATUS);
      if Bit0(st) { return DMA_ERR_BUSY; }
      var align := if caps.Some? && caps.value.alignment > 1 then caps.value.alignment else 1;
      if len == 0 || (align > 1 && len % align != 0) { return DMA_ERR_LEN; }
      if align > 1 && (src % align != 0 || dst % align != 0) { return DMA_ERR_ALIGN; }
      if caps.Some? && caps.value.maxTransfer != 0 && len > caps.value.maxTransfer { return DMA_ERR_UNSUPPORTED; }
      rc := ValidateEndpoints(src, dst, len);
    }

    method ProgramTransfer(src: u32, dst: u32, len: u32, irq: bool)
      requires Valid()
      modifies soc.Repr()
      ensures Valid() && soc.State() == Program(old(soc.State()), src, dst, len, irq)
    {
      hide HalWrite;
      WriteReg(soc, DMA_SRC, src);
      WriteReg(soc, DMA_DST, dst);
      WriteReg(soc, DMA_LEN, len);
      WriteReg(soc, DMA_CTRL, if irq then 3 else 1);
    }

    /** dma_start: no lifecycle. */
    method Start(src: u32, dst: u32, len: u32, irq: bool) returns (rc: int)
      requires Valid()
      modifies soc.Repr()
      ensures Valid() && (soc.State(), rc) == StartTransfer(State(), old(soc.State()), src, dst, len, irq)
    {
      hide Validate, Program;
      rc := ValidateTransfer(src, dst, len);
      if rc != DMA_OK {
        return;
      }
      ProgramTransfer(src, dst, len, irq);
    }

    /** dma_submit: requires IDLE and leaves the driver ACTIVE. */
    method SubmitTransfer(src: u32, dst: u32, len: u32, irq: bool) returns (rc: int)
      requires Valid()
      modifies this, soc.Repr()
      ensures Valid()
      ensures (State(), soc.State(), rc) == Submit(old(State()), old(soc.State()), src, dst, len, irq)
    {
      hide Validate, Program;
      if life != Idle {
        return DMA_ERR_BUSY;
      }
      life := Starting;
      rc := ValidateTransfer(src, dst, len);
      if rc != DMA_OK {
        life := Idle;
        return;
      }
      doneFlag := 0;
      errLatch := 0;
      ProgramTransfer(src, dst, len, irq);
      life := Active;
    }

    method Clear()
      requires Valid()
      modifies soc.Repr()
      ensures Valid() && soc.State() == TwoStepClear(old(soc.State()))
    {
      hide HalWrite;
      WriteReg(soc, DMA_IRQ_CLEAR, 1);
      WriteReg(soc, INTC_CLEAR, IRQ_DMA);
    }

    method LatchOutcome()
      requires Valid()
      modifies this, soc.Repr()
      ensures Valid() && (State(), soc.State()) == Latch(old(State()), old(soc.State()))
    {
      hide HalRead, Bit1, Bit2;
      var st := ReadReg(soc, DMA_STATUS);
      if Bit1(st) {
        doneFlag := 1;
        life := Complete;
      } else if Bit2(st) {
        errLatch := ReadReg(soc, DMA_ERR_CODE);
        life := Error;
      }
    }

    /** dma_isr. */
    method ServiceIrq()
      requires Valid()
      modifies this, soc.Repr()
      ensures Valid() && (State(), soc.State()) == Isr(old(State()), old(soc.State()))
    {
      hide Latch, TwoStepClear;
      LatchOutcome();
      Clear();
      irqCount := Wrap(irqCount + 1);
    }

    /** dma_recover. */
    method RecoverIdle()
      requires Valid()
      modifies this, soc.Repr()
      ensures Valid() && (State(), soc.State()) == Recover(old(State()), old(soc.State()))
    {
      hide TwoStepClear;
      if life == Error || life == Complete {
        life := Recovery;
        Clear();
        doneFlag := 0;
        errLatch := 0;
        life := Idle;
      }
    }
  }
}
