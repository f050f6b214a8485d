/**
 Memory regions and DMA capabilities: the range arithmetic and the endpoint
 rules that the engine and the firmware driver share.
 */
module Regions {
  import opened Words

  datatype MemType = Rom | Sram | Dram | Mmio | Peripheral

  datatype Region = Region(base: u32, size: u32, kind: MemType)

  /** A FIFO register the DMA can stream; bit 0 of roles is "source", bit 1 is "sink". */
  datatype PeriphEp = PeriphEp(fifo: u32, roles: u32)

  datatype Caps = Caps(alignment: u32, maxTransfer: u32,
                       ramToRam: bool, memToPeriph: bool, periphToMem: bool)

  /** The region holds the whole range. */
  predicate Contains(r: Region, addr: u32, len: u32) {
    Covers(r.base, r.size, addr, len)
  }

  predicate Overlaps(aBase: u32, aLen: u32, bBase: u32, bLen: u32) {
    && aLen > 0 && bLen > 0
    && aBase < bBase + bLen
    && bBase < aBase + aLen
  }

  /** Two ranges overlap exactly when some address lies in both. */
  lemma OverlapMeansSharedAddress(aBase: u32, aLen: u32, bBase: u32, bLen: u32)
    ensures Overlaps(aBase, aLen, bBase, bLen)
       <==> exists x: int :: InRange(x, aBase, aLen) && InRange(x, bBase, bLen)
  {
    if Overlaps(aBase, aLen, bBase, bLen) {
      var x := if aBase < bBase then bBase else aBase;
      assert InRange(x, aBase, aLen) && InRange(x, bBase, bLen);
    }
  }

  /** A region contains a range exactly if the range has an address, and each of its addresses exists and is the region's. */
  lemma ContainsMeansEveryAddress(r: Region, addr: u32, len: u32)
    ensures Contains(r, addr, len)
       <==> len > 0 && forall x: int :: InRange(x, addr, len) ==> InRange(x, r.base, r.size) && x < POW32
  {
    if len > 0 && forall x: int :: InRange(x, addr, len) ==> InRange(x, r.base, r.size) && x < POW32 {
      assert InRange(addr, addr, len) && InRange(addr + len - 1, addr, len);
    }
  }

  predicate InRange(x: int, base: u32, len: u32) {
    base <= x < base + len
  }

  /** Index of the first region, from `from` on, that contains the range; -1 if none does. */
  function FindFrom(regions: seq<Region>, addr: u32, len: u32, from: nat): (k: int)
    requires from <= |regions|
    ensures k == -1 || from <= k < |regions|
    ensures k >= 0 ==> Contains(regions[k], addr, len)
    ensures forall j :: from <= j < (if k < 0 then |regions| else k) ==> !Contains(regions[j], addr, len)
    decreases |regions| - from
  {
    if from == |regions| then -1
    else if Contains(regions[from], addr, len) then from
    else FindFrom(regions, addr, len, from + 1)
  }

  function FindRegion(regions: seq<Region>, addr: u32, len: u32): (k: int)
    ensures -1 <= k < |regions|
  {
    FindFrom(regions, addr, len, 0)
  }

  /** The search loop of find_region. */
  method SearchRegion(regions: seq<Region>, addr: u32, len: u32) returns (k: int)
    ensures k == FindRegion(regions, addr, len)
    ensures k == -1 <==> forall j :: 0 <= j < |regions| ==> !Contains(regions[j], addr, len)
  {
    for i := 0 to |regions|
      invariant FindRegion(regions, addr, len) == FindFrom(regions, addr, len, i)
    {
      if Contains(regions[i], addr, len) {
        return i;
      }
    }
    k := -1;
  }

  /** Index of the first table entry anchored at addr; -1 without a table or without an entry. */
  function PeriphFrom(table: seq<PeriphEp>, addr: u32, from: nat): (k: int)
    requires from <= |table|
    ensures k == -1 || from <= k < |table|
    ensures k >= 0 ==> table[k].fifo == addr
    ensures forall j :: from <= j < (if k < 0 then |table| else k) ==> table[j].fifo != addr
    decreases |table| - from
  {
    if from == |table| then -1
    else if table[from].fifo == addr then from
    else PeriphFrom(table, addr, from + 1)
  }

  function PeriphFind(table: Option<seq<PeriphEp>>, addr: u32): (k: int)
    ensures k >= 0 ==> table.Some? && k < |table.value| && table.value[k].fifo == addr
  {
    if table.None? then -1 else PeriphFrom(table.value, addr, 0)
  }

  /** The search loop of dma_periph_find. */
  method SearchPeriph(table: Option<seq<PeriphEp>>, addr: u32) returns (k: int)
    ensures k == PeriphFind(table, addr)
    ensures k < 0 <==> table.None? || forall j :: 0 <= j < |table.value| ==> table.value[j].fifo != addr
  {
    if table.None? {
      return -1;
    }
    for i := 0 to |table.value|
      invariant PeriphFind(table, addr) == PeriphFrom(table.value, addr, i)
    {
      if table.value[i].fifo == addr {
        return i;
      }
    }
    k := -1;
  }

  const ADDR_MEM := 0
  const ADDR_PERIPHERAL := 1
  const ADDR_DEVICE := 2

  /** Table-less classification of an endpoint: -1 when no region holds the range. */
  function EndpointType(regions: seq<Region>, addr: u32, len: u32): int {
    var k := FindRegion(regions, addr, len);
    if k < 0 then -1
    else match regions[k].kind
      case Sram | Dram => ADDR_MEM
      case Mmio | Peripheral => ADDR_PERIPHERAL
      case Rom => ADDR_DEVICE
  }

  predicate DirectionSupported(caps: Caps, src: int, dst: int) {
    if src == ADDR_MEM && dst == ADDR_MEM then caps.ramToRam
    else if src == ADDR_MEM && (dst == ADDR_PERIPHERAL || dst == ADDR_DEVICE) then caps.memToPeriph
    else if (src == ADDR_PERIPHERAL || src == ADDR_DEVICE) && dst == ADDR_MEM then caps.periphToMem
    else false
  }
}
