/** Address decode: which region of the platform table owns an address. */
module Bus {
  import opened Words
  import opened Regions
  import opened Platform

  /** The two passes of the decoder, by what they look for. */
  function Route(regions: seq<Region>, addr: u32): (k: int)
    ensures -1 <= k < |regions|
  {
    var first := FindRegion(regions, addr, 4);
    if first == 0 || first == 1 then first
    else if |regions| < 2 then -1
    else FindFrom(regions, addr, 1, 2)
  }

  /** The decoder: a word-wide search, then a byte-wide search from the third region on. */
  method Decode(regions: seq<Region>, addr: u32) returns (k: int)
    ensures k == Route(regions, addr)
  {
    var first := -1;
    var i := 0;
    while i < |regions|
      invariant 0 <= i <= |regions|
      invariant first == -1 && FindRegion(regions, addr, 4) == FindFrom(regions, addr, 4, i)
    {
      if Contains(regions[i], addr, 4) {
        first := i;
        break;
      }
      i := i + 1;
    }
    if first == 0 || first == 1 {
      return first;
    }
    i := 0;
    while i < |regions|
      invariant 0 <= i <= |regions|
      invariant i <= 2 || Route(regions, addr) == FindFrom(regions, addr, 1, i)
      invariant |regions| >= 2 ==> Route(regions, addr) == FindFrom(regions, addr, 1, 2)
    {
      if Contains(regions[i], addr, 1) && i >= 2 {
        return i;
      }
      i := i + 1;
    }
    k := -1;
  }

  predicate Owns(r: Region, addr: u32) {
    InRange(addr, r.base, r.size)
  }

  /** Regions are word-aligned and no two of them overlap. */
  ghost predicate WordDisjoint(regions: seq<Region>) {
    && (forall i :: 0 <= i < |regions| ==> regions[i].base % 4 == 0 && regions[i].size % 4 == 0)
    && (forall i, j :: 0 <= i < j < |regions| ==>
          !Overlaps(regions[i].base, regions[i].size, regions[j].base, regions[j].size))
  }

  /** An aligned address is owned by an aligned region iff its word lies inside, iff its byte does. */
  lemma WordInside(r: Region, addr: u32)
    requires r.base % 4 == 0 && r.size % 4 == 0 && addr % 4 == 0
    ensures Contains(r, addr, 4) <==> Owns(r, addr)
    ensures Contains(r, addr, 1) <==> Owns(r, addr)
  {
  }

  lemma OneOwner(regions: seq<Region>, addr: u32, i: nat, j: nat)
    requires WordDisjoint(regions) && i < |regions| && j < |regions|
    requires Owns(regions[i], addr) && Owns(regions[j], addr)
    ensures i == j
  {
    if i < j {
      OverlapMeansSharedAddress(regions[i].base, regions[i].size, regions[j].base, regions[j].size);
    } else if j < i {
      OverlapMeansSharedAddress(regions[j].base, regions[j].size, regions[i].base, regions[i].size);
    }
  }

  /** On a disjoint word-aligned table the decoder answers exactly ownership, up to the top of
      the address space: k is the one region that owns the address, -1 when none does. */
  lemma DecodeIsOwnership(regions: seq<Region>, addr: u32)
    requires WordDisjoint(regions) && addr % 4 == 0
    ensures Route(regions, addr) == -1 <==> forall i :: 0 <= i < |regions| ==> !Owns(regions[i], addr)
    ensures forall i :: 0 <= i < |regions| ==> (Owns(regions[i], addr) <==> Route(regions, addr) == i)
  {
    forall i | 0 <= i < |regions|
      ensures Contains(regions[i], addr, 4) <==> Owns(regions[i], addr)
      ensures Contains(regions[i], addr, 1) <==> Owns(regions[i], addr)
    {
      WordInside(regions[i], addr);
    }
    hide Contains, Owns, Overlaps;
    var k := Route(regions, addr);
    assert k >= 0 ==> Owns(regions[k], addr);
    forall i | 0 <= i < |regions| && Owns(regions[i], addr)
      ensures k == i
    {
      assert k >= 0;
      OneOwner(regions, addr, i, k);
    }
  }

  /** The VLAB window an address falls in. */
  function VlabWindow(addr: u32): int {
    if addr < ROM_SIZE then 0
    else if SRAM_BASE <= addr < SRAM_BASE + SRAM_SIZE then 1
    else if UART_BASE <= addr < TIMER_BASE then 2
    else if TIMER_BASE <= addr < DMA_BASE then 3
    else if DMA_BASE <= addr < INTC_BASE then 4
    else if INTC_BASE <= addr < PERF_BASE then 5
    else if PERF_BASE <= addr < PERF_BASE + 0x1000 then 6
    else -1
  }

  /** In a table sorted by base, no region reaches into the next. */
  lemma SortedDisjoint(regions: seq<Region>)
    requires forall i :: 0 <= i < |regions| ==> regions[i].base % 4 == 0 && regions[i].size % 4 == 0
    requires forall i, j :: 0 <= i < j < |regions| ==> regions[i].base + regions[i].size <= regions[j].base
    ensures WordDisjoint(regions)
  {
  }

  lemma VlabDisjoint()
    ensures WordDisjoint(VlabMap())
  {
    SortedDisjoint(VlabMap());
  }

  /** On the VLAB table the decoder answers the window of an aligned address. */
  lemma VlabDecode(addr: u32)
    requires addr % 4 == 0
    ensures Route(VlabMap(), addr) == VlabWindow(addr)
  {
    VlabDisjoint();
    DecodeIsOwnership(VlabMap(), addr);
    var w := VlabWindow(addr);
    assert w >= 0 ==> Owns(VlabMap()[w], addr);
    assert w < 0 ==> forall i :: 0 <= i < 7 ==> !Owns(VlabMap()[i], addr);
  }
}
