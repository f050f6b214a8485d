/** What a transfer must be to be accepted, and which error a refused one gets, without reference to the checks' code. */
module VerdictTheorems {
  import opened Words
  import opened Regions
  import opened Platform
  import opened DmaModel
  import opened DmaDriverModel
  import opened SocModel
  import opened Hal
  import opened Validators
  import opened Access
  import opened LifecycleTheorems

  /** The range is first found in region k. */
  predicate FirstAt(regions: seq<Region>, addr: u32, len: u32, k: nat) {
    k < |regions| && Contains(regions[k], addr, len) && forall j :: 0 <= j < k ==> !Contains(regions[j], addr, len)
  }

  predicate LiesIn(regions: seq<Region>, addr: u32, len: u32, kinds: set<MemType>) {
    exists k :: 0 <= k < |regions| && FirstAt(regions, addr, len, k) && regions[k].kind in kinds
  }

  const MEMORIES: set<MemType> := {Sram, Dram}
  const DEVICES: set<MemType> := {Rom, Mmio, Peripheral}

  /** The address is the anchor of a listed FIFO. */
  predicate Listed(c: DmaConfig, addr: u32) {
    c.periphs.Some? && exists k :: 0 <= k < |c.periphs.value| && c.periphs.value[k].fifo == addr
  }

  /** The end is somewhere: at a listed FIFO or inside some region. */
  predicate Mapped(c: DmaConfig, addr: u32, len: u32) {
    Listed(c, addr) || exists k :: 0 <= k < |c.regions| && Contains(c.regions[k], addr, len)
  }

  predicate MemoryEnd(c: DmaConfig, addr: u32, len: u32) {
    !Listed(c, addr) && LiesIn(c.regions, addr, len, MEMORIES)
  }

  predicate FirstListed(table: seq<PeriphEp>, addr: u32, k: nat) {
    k < |table| && table[k].fifo == addr && forall j :: 0 <= j < k ==> table[j].fifo != addr
  }

  /** The first FIFO listed at the address has the role. */
  predicate HasRole(table: seq<PeriphEp>, addr: u32, asSource: bool) {
    exists k :: 0 <= k < |table| && FirstListed(table, addr, k)
                && (if asSource then Bit0(table[k].roles) else Bit1(table[k].roles))
  }

  /** The end can be a peripheral source or sink: a FIFO with that role, or without a FIFO table any device region. */
  predicate DeviceEnd(c: DmaConfig, addr: u32, len: u32, asSource: bool) {
    if c.periphs.Some? then HasRole(c.periphs.value, addr, asSource) else LiesIn(c.regions, addr, len, DEVICES)
  }

  /** An allowed direction between two such ends. */
  predicate Connects(c: DmaConfig, src: u32, dst: u32, len: u32) {
    || (c.caps.ramToRam && MemoryEnd(c, src, len) && MemoryEnd(c, dst, len))
    || (c.caps.memToPeriph && MemoryEnd(c, src, len) && DeviceEnd(c, dst, len, false))
    || (c.caps.periphToMem && DeviceEnd(c, src, len, true) && MemoryEnd(c, dst, len))
  }

  lemma FoundIsFirst(regions: seq<Region>, addr: u32, len: u32)
    ensures var k := FindRegion(regions, addr, len);
            && (k >= 0 ==> FirstAt(regions, addr, len, k))
            && (k < 0 <==> forall j :: 0 <= j < |regions| ==> !Contains(regions[j], addr, len))
            && (forall j: nat :: FirstAt(regions, addr, len, j) ==> j == k)
  {
    hide Contains;
  }

  lemma KindFound(regions: seq<Region>, addr: u32, len: u32, kinds: set<MemType>)
    ensures var k := FindRegion(regions, addr, len);
            LiesIn(regions, addr, len, kinds) <==> k >= 0 && regions[k].kind in kinds
  {
    hide FirstAt, FindRegion;
    FoundIsFirst(regions, addr, len);
  }

  lemma RoleFound(table: seq<PeriphEp>, addr: u32, asSource: bool)
    ensures var k := PeriphFind(Some(table), addr);
            && (k >= 0 <==> exists j :: 0 <= j < |table| && table[j].fifo == addr)
            && (HasRole(table, addr, asSource)
                <==> k >= 0 && if asSource then Bit0(table[k].roles) else Bit1(table[k].roles))
  {
    hide Bit0, Bit1, FirstListed;
    FoundIsFirstListed(table, addr);
  }

  lemma FoundIsFirstListed(table: seq<PeriphEp>, addr: u32)
    ensures var k := PeriphFind(Some(table), addr);
            && (k >= 0 ==> FirstListed(table, addr, k))
            && (k < 0 ==> forall j :: 0 <= j < |table| ==> table[j].fifo != addr)
            && (forall j: nat :: FirstListed(table, addr, j) ==> j == k)
  {
  }

  /** The engine's class of an end, by where the end lies. */
  lemma ClassMeaning(c: DmaConfig, addr: u32, len: u32, asSource: bool)
    ensures var k := EndpointClass(c, addr, len);
            && (k == -1 <==> !Mapped(c, addr, len))
            && (k == 0 <==> MemoryEnd(c, addr, len))
            && (k > 0 && !WrongRole(c, addr, asSource) <==> DeviceEnd(c, addr, len, asSource))
            && -2 <= k <= 2 && (k == 0 ==> !WrongRole(c, addr, asSource))
  {
    hide FindRegion, LiesIn, HasRole, Bit0, Bit1, Contains;
    FoundIsFirst(c.regions, addr, len);
    KindFound(c.regions, addr, len, MEMORIES);
    KindFound(c.regions, addr, len, DEVICES);
    if c.periphs.Some? {
      RoleFound(c.periphs.value, addr, asSource);
    }
  }

  lemma EndpointMeaning(c: DmaConfig, src: u32, dst: u32, len: u32)
    ensures var v := EndpointVerdict(c, src, dst, len);
            && (v == ERR_ADDR <==> !Mapped(c, src, len) || !Mapped(c, dst, len))
            && (v == ERR_NONE <==> Connects(c, src, dst, len))
            && v in {ERR_NONE, ERR_ADDR, ERR_UNSUPPORTED}
  {
    hide EndpointClass, WrongRole, Mapped, MemoryEnd, DeviceEnd;
    ClassMeaning(c, src, len, true);
    ClassMeaning(c, dst, len, false);
  }

  function Grain(c: DmaConfig): pos32 {
    if c.caps.alignment > 1 then c.caps.alignment else 1
  }

  predicate WellSized(c: DmaConfig, len: u32) {
    len > 0 && len % Grain(c) == 0
  }

  predicate WellPlaced(c: DmaConfig, src: u32, dst: u32) {
    src % Grain(c) == 0 && dst % Grain(c) == 0
  }

  predicate Short(c: DmaConfig, len: u32) {
    c.caps.maxTransfer == 0 || len <= c.caps.maxTransfer
  }

  /** Exactly which code every transfer gets, for all tables: LEN for a bad size, then ALIGN, then UNSUPPORTED for an
      overlong one, then ADDR for an end that is nowhere, then UNSUPPORTED for ends no allowed direction connects. */
  lemma VerdictMeaning(c: DmaConfig, src: u32, dst: u32, len: u32)
    ensures var v := Verdict(c, src, dst, len);
            var sound := WellSized(c, len) && WellPlaced(c, src, dst);
            var mapped := Mapped(c, src, len) && Mapped(c, dst, len);
            && (v == ERR_LEN <==> !WellSized(c, len))
            && (v == ERR_ALIGN <==> WellSized(c, len) && !WellPlaced(c, src, dst))
            && (v == ERR_ADDR <==> sound && Short(c, len) && !mapped)
            && (v == ERR_NONE <==> sound && Short(c, len) && Connects(c, src, dst, len))
            && (v == ERR_UNSUPPORTED <==> sound && (!Short(c, len) || (mapped && !Connects(c, src, dst, len))))
  {
    hide EndpointVerdict, Mapped, Connects;
    EndpointMeaning(c, src, dst, len);
  }

  /** And what the driver answers for it, in its own numbers: the same five outcomes, by the same five conditions. */
  lemma DriverMeaning(c: DmaConfig, src: u32, dst: u32, len: u32)
    ensures var rc := Check(SharedTables(c), src, dst, len);
            var sound := WellSized(c, len) && WellPlaced(c, src, dst);
            var mapped := Mapped(c, src, len) && Mapped(c, dst, len);
            && (rc == DMA_ERR_LEN <==> !WellSized(c, len))
            && (rc == DMA_ERR_ALIGN <==> WellSized(c, len) && !WellPlaced(c, src, dst))
            && (rc == DMA_ERR_ADDR <==> sound && Short(c, len) && !mapped)
            && (rc == DMA_OK <==> sound && Short(c, len) && Connects(c, src, dst, len))
            && (rc == DMA_ERR_UNSUPPORTED <==> sound && (!Short(c, len) || (mapped && !Connects(c, src, dst, len))))
  {
    hide Verdict, Check, Mapped, Connects, WellSized, WellPlaced, Short;
    VerdictMeaning(c, src, dst, len);
    ValidatorsAgree(c, src, dst, len);
  }

  /** What a submit answers, in any state and with any shared tables: -4 for BUSY while the lifecycle or the engine is busy,
      otherwise the number of the engine's own verdict; refused, it leaves driver and engine alone. */
  lemma SubmitAnswers(d: DriverState, s: SocState, src: u32, dst: u32, len: u32, irq: bool)
    requires d.tables == SharedTables(s.dma.cfg)
    ensures var (e, t, rc) := Submit(d, s, src, dst, len, irq);
            && (rc == -4 <==> !d.life.Idle? || s.dma.phase.Busy?)
            && (d.life.Idle? && !s.dma.phase.Busy? ==> rc == DriverCode(Verdict(s.dma.cfg, src, dst, len)))
            && (rc != DMA_OK ==> e == d && SameButPerf(s, t))
            && (rc == DMA_OK ==> e.life.Active? && e.doneFlag == 0 && e.errLatch == 0 && e.tables == d.tables
                                 && t.dma.phase == Phase.Busy(Countdown(s.dma.cfg, len), irq)
                                 && t.dma.src == src && t.dma.dst == dst && t.dma.len == len)
  {
    hide HalRead, Program, Check, Verdict, Countdown;
    if d.life.Idle? {
      StatusRead(s);
      var s1 := HalRead(s, DMA_STATUS).0;
      ValidatorsAgree(s.dma.cfg, src, dst, len);
      ProgramStarts(s1, src, dst, len, irq);
    }
  }
}
